/**
  The handler chain `NewMgin` (mgin.go) builds: the recovery middleware first,
  then the supplied loggers, a default logger when none was supplied, the
  other supplied handlers, and the router last; the root group starts at "/"
  on that router.
 */
module Mgin {
  import opened Routing

  /** A supplied `negroni.Handler`: its identity and whether its dynamic type
      is `*negroni.Logger`. */
  datatype Handler = Handler(id: nat, isLogger: bool)

  /** An entry of the negroni chain. */
  datatype Middleware =
    | Recovery                    // negroni.NewRecovery()
    | DefaultLogger(name: string) // WithLogger(name)
    | Supplied(h: Handler)
    | Router(mux: MuxId)          // the bone mux, attached with UseHandler

  datatype MiniGin = MiniGin(chain: seq<Middleware>, root: RouterGroup)

  const DefaultLoggerName := "mgin"

  /** The supplied loggers, in the order supplied. */
  function Loggers(hs: seq<Handler>): (r: seq<Handler>)
    ensures |r| <= |hs|
    ensures forall i :: 0 <= i < |r| ==> r[i].isLogger
  {
    if |hs| == 0 then []
    else Loggers(hs[..|hs| - 1]) + (if hs[|hs| - 1].isLogger then [hs[|hs| - 1]] else [])
  }

  /** The supplied handlers that are not loggers, in the order supplied. */
  function Others(hs: seq<Handler>): (r: seq<Handler>)
    ensures |r| <= |hs|
    ensures forall i :: 0 <= i < |r| ==> !r[i].isLogger
  {
    if |hs| == 0 then []
    else Others(hs[..|hs| - 1]) + (if hs[|hs| - 1].isLogger then [] else [hs[|hs| - 1]])
  }

  predicate HasLogger(hs: seq<Handler>) {
    exists i :: 0 <= i < |hs| && hs[i].isLogger
  }

  function AsMiddleware(hs: seq<Handler>): (r: seq<Middleware>)
    ensures |r| == |hs|
    ensures forall i :: 0 <= i < |hs| ==> r[i] == Supplied(hs[i])
  {
    seq(|hs|, i requires 0 <= i < |hs| => Supplied(hs[i]))
  }

  /** The chain as a whole. */
  function Chain(hs: seq<Handler>, mux: MuxId): seq<Middleware> {
    [Recovery]
      + AsMiddleware(Loggers(hs))
      + DefaultPart(hs)
      + AsMiddleware(Others(hs))
      + [Router(mux)]
  }

  lemma {:induction false} HasLoggerIffLoggers(hs: seq<Handler>)
    ensures HasLogger(hs) <==> |Loggers(hs)| > 0
  {
    if |hs| > 0 {
      var init := hs[..|hs| - 1];
      HasLoggerIffLoggers(init);
      if HasLogger(init) {
        var i :| 0 <= i < |init| && init[i].isLogger;
        assert hs[i].isLogger;
      }
      if HasLogger(hs) && !hs[|hs| - 1].isLogger {
        var i :| 0 <= i < |hs| && hs[i].isLogger;
        assert init[i].isLogger;
      }
    }
  }

  /** One more supplied handler extends exactly one of the two groups. */
  lemma PartitionStep(init: seq<Handler>, last: Handler)
    ensures Loggers(init + [last]) == Loggers(init) + (if last.isLogger then [last] else [])
    ensures Others(init + [last]) == Others(init) + (if last.isLogger then [] else [last])
  {
    assert (init + [last])[..|init|] == init;
  }

  /** Appending one element to either part of a concatenation adds it once. */
  lemma MultisetSnoc(l: seq<Handler>, o: seq<Handler>, x: Handler)
    ensures multiset((l + [x]) + o) == multiset(l + o) + multiset{x}
    ensures multiset(l + (o + [x])) == multiset(l + o) + multiset{x}
  {
  }

  /** Loggers and the others together are the supplied handlers, each exactly
      once. */
  lemma {:induction false} PartitionIsPermutation(hs: seq<Handler>)
    ensures multiset(Loggers(hs) + Others(hs)) == multiset(hs)
  {
    if |hs| > 0 {
      var init := hs[..|hs| - 1];
      var last := hs[|hs| - 1];
      PartitionIsPermutation(init);
      assert hs == init + [last];
      PartitionStep(init, last);
      MultisetSnoc(Loggers(init), Others(init), last);
    }
  }

  predicate IsLoggerEntry(m: Middleware) {
    m.DefaultLogger? || (m.Supplied? && m.h.isLogger)
  }

  function DefaultPart(hs: seq<Handler>): seq<Middleware> {
    if HasLogger(hs) then [] else [DefaultLogger(DefaultLoggerName)]
  }

  /** Recovery comes first, the router last, and the length counts every
      supplied handler once. */
  lemma ChainEnds(hs: seq<Handler>, mux: MuxId)
    ensures var c := Chain(hs, mux);
      && |c| == |hs| + 2 + |DefaultPart(hs)|
      && c[0] == Recovery
      && c[|c| - 1] == Router(mux)
  {
    PartitionIsPermutation(hs);
    assert |Loggers(hs) + Others(hs)| == |hs| by {
      assert |multiset(Loggers(hs) + Others(hs))| == |multiset(hs)|;
    }
  }

  /** The default logger is in the chain exactly when no supplied handler is a
      logger, and then it comes right after recovery; either way the second
      entry is a logger. */
  lemma ChainDefaultLogger(hs: seq<Handler>, mux: MuxId)
    ensures var c := Chain(hs, mux);
      && |c| >= 3
      && IsLoggerEntry(c[1])
      && (DefaultLogger(DefaultLoggerName) in c <==> !HasLogger(hs))
      && (!HasLogger(hs) ==> c[1] == DefaultLogger(DefaultLoggerName))
  {
    var c := Chain(hs, mux);
    var ls := AsMiddleware(Loggers(hs));
    var os := AsMiddleware(Others(hs));
    HasLoggerIffLoggers(hs);
    assert c == [Recovery] + ls + DefaultPart(hs) + os + [Router(mux)];
    if HasLogger(hs) {
      assert c[1] == ls[0];
      forall i | 0 <= i < |c| ensures c[i] != DefaultLogger(DefaultLoggerName) {
        if 1 <= i < 1 + |ls| {
          assert c[i] == ls[i - 1];
        } else if 1 + |ls| <= i < 1 + |ls| + |os| {
          assert c[i] == os[i - 1 - |ls|];
        }
      }
    } else {
      assert c[1] == DefaultLogger(DefaultLoggerName);
    }
  }

  /** Every logger entry comes before every non-logger supplied handler. */
  lemma ChainLoggersFirst(hs: seq<Handler>, mux: MuxId)
    ensures var c := Chain(hs, mux);
      forall i, j :: 0 <= i < j < |c| && IsLoggerEntry(c[j]) ==> IsLoggerEntry(c[i]) || c[i] == Recovery
  {
    var c := Chain(hs, mux);
    var ls := AsMiddleware(Loggers(hs));
    var d := DefaultPart(hs);
    var os := AsMiddleware(Others(hs));
    assert c == [Recovery] + ls + d + os + [Router(mux)];
    var k := 1 + |ls| + |d|;
    forall i, j | 0 <= i < j < |c| && IsLoggerEntry(c[j])
      ensures IsLoggerEntry(c[i]) || c[i] == Recovery
    {
      if 1 <= i < 1 + |ls| {
        assert c[i] == ls[i - 1];
      }
    }
  }

  /** The first pass of `NewMgin`: after recovery, every supplied logger in
      order; `hasLogger` tells whether there was one. */
  method UseLoggers(handlers: seq<Handler>) returns (chain: seq<Middleware>, hasLogger: bool)
    ensures chain == [Recovery] + AsMiddleware(Loggers(handlers))
    ensures hasLogger <==> HasLogger(handlers)
  {
    chain := [Recovery];
    hasLogger := false;
    var i := 0;
    while i < |handlers|
      invariant 0 <= i <= |handlers|
      invariant hasLogger <==> |Loggers(handlers[..i])| > 0
      invariant chain == [Recovery] + AsMiddleware(Loggers(handlers[..i]))
    {
      PartitionStep(handlers[..i], handlers[i]);
      assert handlers[..i + 1] == handlers[..i] + [handlers[i]];
      if handlers[i].isLogger {
        hasLogger := true;
        chain := chain + [Supplied(handlers[i])];
      }
      i := i + 1;
    }
    assert handlers[..i] == handlers;
    HasLoggerIffLoggers(handlers);
  }

  /** The second pass of `NewMgin`: every supplied handler that is not a
      logger, in order, after the chain built so far. */
  method UseOthers(handlers: seq<Handler>, prefix: seq<Middleware>) returns (chain: seq<Middleware>)
    ensures chain == prefix + AsMiddleware(Others(handlers))
  {
    chain := prefix;
    var i := 0;
    while i < |handlers|
      invariant 0 <= i <= |handlers|
      invariant chain == prefix + AsMiddleware(Others(handlers[..i]))
    {
      PartitionStep(handlers[..i], handlers[i]);
      assert handlers[..i + 1] == handlers[..i] + [handlers[i]];
      if !handlers[i].isLogger {
        chain := chain + [Supplied(handlers[i])];
      }
      i := i + 1;
    }
    assert handlers[..i] == handlers;
  }

  /** `NewMgin`: the loggers pass, the default logger if that pass found none,
      the pass over the rest, then the router; `mux` is the router
      `bone.New()` creates, and the root group starts at "/" on it. */
  method NewMgin(handlers: seq<Handler>, mux: MuxId) returns (app: MiniGin)
    ensures app.chain == Chain(handlers, mux)
    ensures |app.chain| == |handlers| + 2 + |DefaultPart(handlers)|
    ensures app.chain[0] == Recovery && app.chain[|app.chain| - 1] == Router(mux)
    ensures DefaultLogger(DefaultLoggerName) in app.chain <==> !HasLogger(handlers)
    ensures app.root == RouterGroup("/", mux)
  {
    var chain, hasLogger := UseLoggers(handlers);
    if !hasLogger {
      chain := chain + [DefaultLogger(DefaultLoggerName)];
    }
    chain := UseOthers(handlers, chain);
    chain := chain + [Router(mux)];
    app := MiniGin(chain, RouterGroup("/", mux));
    ChainEnds(handlers, mux);
    ChainDefaultLogger(handlers, mux);
  }
}
