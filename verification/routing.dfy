/**
  Router groups of group.go: a group is a base path plus the shared router
  (`*bone.Mux`); `Group` derives a child group and every route method
  registers its handler under the group's absolute form of the pattern.
 */
module Routing {
  import opened Paths
  import opened PathLaws

  /** The identity of a `*bone.Mux`; groups derived from one another share it. */
  type MuxId = nat

  datatype RouterGroup = RouterGroup(basePath: string, mux: MuxId)

  /** `RouterGroup.Group`: a new group on the same router whose base path is
      `toAbsPath(basePath, relPath)`; the parent is a value and stays as it
      was. */
  function Group(g: RouterGroup, relPath: string): (child: RouterGroup)
    ensures child.mux == g.mux
    ensures child.basePath == ToAbsPath(g.basePath, relPath)
    ensures Rooted(g.basePath) ==> Rooted(child.basePath)
    ensures |relPath| == 0 ==> child == g
  {
    ToAbsPathRooted(g.basePath, relPath);
    RouterGroup(ToAbsPath(g.basePath, relPath), g.mux)
  }

  /** The HTTP method of a route: `Get`/`GET`, `Put`/`PUT`, and so on. */
  datatype Method = Get | Put | Post | Patch | Head | Options | Delete

  /** What the router receives: an `http.HandlerFunc` as given, or a
      `func(*Context)` wrapped by `unwrap`. */
  datatype RouteHandler = HttpHandler(h: nat) | Unwrapped(contextHandler: nat)

  /** One registration with the router. */
  datatype Route = Route(mux: MuxId, verb: Method, path: string, handler: RouteHandler)

  /** The route methods taking an `http.HandlerFunc` (`Get`, `Put`, `Post`,
      `Patch`, `Head`, `Options`, `Delete`). */
  function Handle(g: RouterGroup, m: Method, pattern: string, h: nat): (r: Route)
    ensures r.mux == g.mux && r.verb == m && r.handler == HttpHandler(h)
    ensures r.path == ToAbsPath(g.basePath, pattern)
    ensures Rooted(g.basePath) ==> Rooted(r.path)
  {
    ToAbsPathRooted(g.basePath, pattern);
    Route(g.mux, m, ToAbsPath(g.basePath, pattern), HttpHandler(h))
  }

  /** The route methods taking a `func(*Context)` (`GET`, `PUT`, `POST`,
      `PATCH`, `OPTIONS`, `HEAD`, `DELETE`): the same path, the handler
      wrapped by `unwrap`. */
  function HandleContext(g: RouterGroup, m: Method, pattern: string, h: nat): (r: Route)
    ensures r == Handle(g, m, pattern, h).(handler := Unwrapped(h))
  {
    Route(g.mux, m, ToAbsPath(g.basePath, pattern), Unwrapped(h))
  }

  /** The group reached from `g` through the relative paths `rels`, in order. */
  function Descend(g: RouterGroup, rels: seq<string>): RouterGroup
    decreases |rels|
  {
    if |rels| == 0 then g else Descend(Group(g, rels[0]), rels[1..])
  }

  /** Every group reached from a rooted group, however deep, is rooted and
      shares its router. */
  lemma {:induction false} DescendStaysRooted(g: RouterGroup, rels: seq<string>)
    requires Rooted(g.basePath)
    ensures Rooted(Descend(g, rels).basePath)
    ensures Descend(g, rels).mux == g.mux
    decreases |rels|
  {
    if |rels| > 0 {
      DescendStaysRooted(Group(g, rels[0]), rels[1..]);
    }
  }

  /** A route in a nested group lands where the same route would land with
      the group's relative path prefixed to the pattern. */
  lemma NestedGroupRoute(g: RouterGroup, rel: string, m: Method, pattern: string, h: nat)
    requires Rooted(g.basePath) && |rel| > 0 && |pattern| > 0
    ensures Handle(Group(g, rel), m, pattern, h) == Handle(g, m, rel + "/" + pattern, h)
  {
    NestedToAbsPath(g.basePath, rel, pattern);
  }

  /** Nested groups compose: the group `b` inside the group `a` is the group
      `a/b`. */
  lemma NestedGroups(g: RouterGroup, a: string, b: string)
    requires Rooted(g.basePath) && |a| > 0 && |b| > 0
    ensures Group(Group(g, a), b) == Group(g, a + "/" + b)
  {
    NestedToAbsPath(g.basePath, a, b);
  }
}
