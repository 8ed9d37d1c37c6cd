/**
  Route-path composition of group.go: `toAbsPath` and `lastChar`, over a
  lexical model of Go's `path.Join` and `path.Clean`.

  `Clean` is modelled element-wise: the path is split at '/', empty and "."
  elements are dropped, and ".." removes the previous element when there is
  one that is not itself ".."; at the root ".." is dropped, while a relative
  path keeps a leading run of "..". The kept elements are rejoined with '/',
  prefixed by '/' for a rooted path, and an empty relative result is ".".
 */
module Paths {

  /** A piece of a path between two separators. */
  type Piece = s: string | '/' !in s

  /** A piece Clean keeps: non-empty and not ".". */
  type Elem = s: Piece | |s| > 0 && s != "." witness "a"

  /** The pieces read so far and the piece being read, while scanning a path
      left to right. */
  datatype Scan = Scan(done: seq<Piece>, current: Piece)

  function ScanChar(st: Scan, c: char): Scan {
    if c == '/' then Scan(st.done + [st.current], "")
    else Scan(st.done, st.current + [c])
  }

  function ScanFrom(st: Scan, p: string): Scan
    decreases |p|
  {
    if |p| == 0 then st else ScanFrom(ScanChar(st, p[0]), p[1..])
  }

  /** The '/'-separated pieces of `p`; there is always at least one. */
  function Split(p: string): (r: seq<Piece>)
    ensures |r| >= 1
  {
    var st := ScanFrom(Scan([], ""), p);
    st.done + [st.current]
  }

  predicate NoDotDot(st: seq<Elem>) {
    forall i :: 0 <= i < |st| ==> st[i] != ".."
  }

  /** The effect of one piece on the kept elements. */
  function ResolvePiece(rooted: bool, s: Piece, stack: seq<Elem>): (r: seq<Elem>)
    ensures rooted && NoDotDot(stack) ==> NoDotDot(r)
  {
    if s == "" || s == "." then stack
    else if s == ".." then
      if |stack| > 0 && stack[|stack| - 1] != ".." then stack[..|stack| - 1]
      else if rooted then stack
      else stack + [".."]
    else stack + [s]
  }

  /** Resolves `pieces`, left to right, onto the already-kept elements
      `stack`. */
  function Resolve(rooted: bool, pieces: seq<Piece>, stack: seq<Elem>): (r: seq<Elem>)
    ensures rooted && NoDotDot(stack) ==> NoDotDot(r)
    decreases |pieces|
  {
    if |pieces| == 0 then stack
    else Resolve(rooted, pieces[1..], ResolvePiece(rooted, pieces[0], stack))
  }

  /** The elements joined by '/'. */
  function JoinElements(st: seq<Elem>): (r: string)
    ensures |st| == 0 <==> |r| == 0
    ensures |st| > 0 ==> r[|r| - 1] != '/' && r[0] != '/'
  {
    if |st| == 0 then ""
    else if |st| == 1 then st[0]
    else st[0] + "/" + JoinElements(st[1..])
  }

  /** `path.Clean`. */
  function Clean(p: string): (r: string)
    ensures |r| > 0
    ensures r[|r| - 1] == '/' ==> r == "/"
    ensures |p| > 0 && p[0] == '/' <==> r[0] == '/'
  {
    if |p| == 0 then "."
    else
      var rooted := p[0] == '/';
      var body := JoinElements(Resolve(rooted, Split(p), []));
      if rooted then "/" + body
      else if |body| == 0 then "."
      else body
  }

  /** `path.Join(a, b)`: the non-empty arguments joined by '/' and cleaned; ""
      when both are empty. */
  function Join(a: string, b: string): (r: string)
    ensures |a| == 0 && |b| == 0 <==> |r| == 0
    ensures |r| > 0 ==> r == Clean(if |a| == 0 then b else if |b| == 0 then a else a + "/" + b)
    ensures |r| > 0 ==> (r[0] == '/' <==> if |a| > 0 then a[0] == '/' else b[0] == '/')
    ensures |r| > 0 && r[|r| - 1] == '/' ==> r == "/"
  {
    if |a| == 0 && |b| == 0 then ""
    else if |a| == 0 then Clean(b)
    else if |b| == 0 then Clean(a)
    else Clean(a + "/" + b)
  }

  /** `lastChar`: the final byte; the source panics on "", so the empty string
      is excluded. */
  function LastChar(s: string): (c: char)
    requires |s| > 0
    ensures c == s[|s| - 1]
    ensures c in s
  {
    s[|s| - 1]
  }

  /** `toAbsPath`: an empty relative path leaves the base unchanged; otherwise
      the joined, cleaned path, which keeps the relative path's trailing '/'.
      The join of a non-empty relative path is never empty, so `lastChar`
      never panics here. */
  function ToAbsPath(absPath: string, relPath: string): (r: string)
    ensures |relPath| == 0 ==> r == absPath
    ensures |relPath| > 0 ==>
      r == if relPath[|relPath| - 1] == '/' && Join(absPath, relPath) != "/" then Join(absPath, relPath) + "/"
           else Join(absPath, relPath)
    ensures |relPath| > 0 ==>
      |r| > 0 && (r[|r| - 1] == '/' <==> relPath[|relPath| - 1] == '/' || Join(absPath, relPath) == "/")
  {
    if |relPath| == 0 then absPath
    else
      var resPath := Join(absPath, relPath);
      if LastChar(relPath) == '/' && LastChar(resPath) != '/' then resPath + "/"
      else resPath
  }
}
