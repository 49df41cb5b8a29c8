/**
 `focusedGraph` and `capGraph` in pkg/api/svg.go: the part of a provenance graph that is drawn for one alert.

 The node map and the depth map of the source get the same keys at the same places, so one map stands for both.
 Edges come from a map keyed by edge ID, so two edges with one ID are the same edge.
 */
module FocusedGraph {
  import opened Lex
  import opened TreeOrder

  datatype Link = Link(id: string, source: string, target: string, at: int)
  datatype Graph = Graph(known: set<string>, links: seq<Link>)
  datatype Caps = Caps(depth: nat, nodes: nat, links: nat)
  datatype Focus = Focus(queue: seq<string>, depth: map<string, nat>, links: map<string, Link>, truncated: bool)

  predicate Keyed(g: Graph) {
    forall d, e :: d in g.links && e in g.links && d.id == e.id ==> d == e
  }

  // ----- what should be drawn -----

  /** The links at u, in insertion order; a self-loop once. */
  function Incident(links: seq<Link>, u: string): seq<Link> {
    if links == [] then []
    else
      var e := links[|links| - 1];
      Incident(links[..|links| - 1], u) + if e.source == u || e.target == u then [e] else []
  }

  lemma {:induction false} IncidentMembers(links: seq<Link>, u: string, e: Link)
    ensures e in Incident(links, u) <==> e in links && (e.source == u || e.target == u)
    decreases |links|
  {
    if links != [] {
      IncidentMembers(links[..|links| - 1], u, e);
      assert links == links[..|links| - 1] + [links[|links| - 1]];
    }
  }

  /** The known ends of the links, in order. */
  function Ends(es: seq<Link>, known: set<string>): seq<string> {
    if es == [] then [] else Ends(es[..|es| - 1], known) + KnownEnds(es[|es| - 1], known)
  }

  function KnownEnds(e: Link, known: set<string>): seq<string> {
    (if e.source in known then [e.source] else []) + (if e.target in known then [e.target] else [])
  }

  lemma {:induction false} EndsMembers(es: seq<Link>, known: set<string>, v: string)
    ensures v in Ends(es, known) <==> v in known && exists e :: e in es && (v == e.source || v == e.target)
    decreases |es|
  {
    if es != [] {
      EndsMembers(es[..|es| - 1], known, v);
      assert es == es[..|es| - 1] + [es[|es| - 1]];
    }
  }

  /** Links read in both directions, between known nodes. */
  function Neighbours(g: Graph): Adj {
    map u | u in g.known :: Ends(Incident(g.links, u), g.known)
  }

  /** The nodes at most n links away from start. */
  ghost function Ball(g: Graph, start: string, n: nat): set<string> {
    Within(Neighbours(g), {start}, n)
  }

  /** Some end of e is expanded when the search goes n levels deep. */
  ghost predicate Near(g: Graph, start: string, n: nat, e: Link) {
    n > 0 && (e.source in Ball(g, start, n - 1) || e.target in Ball(g, start, n - 1))
  }

  /** The links the search can meet, whether or not both their ends are known. */
  ghost function Met(g: Graph, start: string, n: nat): set<Link> {
    set e | e in g.links && Near(g, start, n, e)
  }

  ghost function Drawn(g: Graph, start: string, n: nat): set<Link> {
    set e | e in Met(g, start, n) && e.source in Ball(g, start, n) && e.target in Ball(g, start, n)
  }

  /** Known ends of a link are neighbours of each other and of themselves. */
  lemma {:induction false} LinkJoins(g: Graph, e: Link, u: string, v: string)
    requires e in g.links && u in g.known && v in g.known && (u == e.source || u == e.target)
        && (v == e.source || v == e.target)
    ensures v in Succ(Neighbours(g), u)
  {
    IncidentMembers(g.links, u, e);
    EndsMembers(Incident(g.links, u), g.known, v);
  }

  // ----- the search with caps -----

  /** One end of a followed link. */
  function Touch(known: set<string>, c: Caps, s: Focus, id: string, v: string): (r: Focus)
    requires id in s.depth
    ensures id in r.depth && r.depth[id] == s.depth[id]
  {
    if v in s.depth then s
    else if |s.depth| >= c.nodes then s.(truncated := true)
    else if v in known then s.(queue := s.queue + [v], depth := s.depth[v := s.depth[id] + 1])
    else s
  }

  function Follow(known: set<string>, c: Caps, s: Focus, id: string, e: Link): (r: Focus)
    requires id in s.depth
    ensures id in r.depth && r.depth[id] == s.depth[id]
  {
    if |s.links| >= c.links then s.(truncated := true)
    else Touch(known, c, Touch(known, c, s.(links := s.links[e.id := e]), id, e.source), id, e.target)
  }

  function FollowAll(known: set<string>, c: Caps, s: Focus, id: string, es: seq<Link>): (r: Focus)
    requires id in s.depth
    ensures id in r.depth && r.depth[id] == s.depth[id]
  {
    if es == [] then s else Follow(known, c, FollowAll(known, c, s, id, es[..|es| - 1]), id, es[|es| - 1])
  }

  /** One turn of the loop. */
  function Turn(g: Graph, c: Caps, s: Focus): Focus
    requires s.queue != [] && s.queue[0] in s.depth
  {
    var id, rest := s.queue[0], s.(queue := s.queue[1..]);
    if s.depth[id] >= c.depth then rest else FollowAll(g.known, c, rest, id, Incident(g.links, id))
  }

  // ----- what holds whether or not a cap was hit -----

  function AtLeastOne(n: nat): nat {
    if n == 0 then 1 else n
  }

  ghost predicate Placed(g: Graph, start: string, c: Caps, depth: map<string, nat>, v: string) {
    v in depth && v in g.known && depth[v] <= c.depth && v in Ball(g, start, depth[v])
  }

  ghost predicate Kept(g: Graph, start: string, c: Caps, links: map<string, Link>, k: string) {
    k in links && links[k].id == k && links[k] in g.links && Near(g, start, c.depth, links[k])
  }

  ghost predicate NodesSound(g: Graph, start: string, c: Caps, queue: seq<string>, depth: map<string, nat>) {
    && start in depth && |depth| <= AtLeastOne(c.nodes)
    && (forall v {:trigger Placed(g, start, c, depth, v)} :: v in depth ==> Placed(g, start, c, depth, v))
    && forall i :: 0 <= i < |queue| ==> queue[i] in depth
  }

  ghost predicate LinksSound(g: Graph, start: string, c: Caps, links: map<string, Link>) {
    && |links| <= c.links
    && forall k {:trigger Kept(g, start, c, links, k)} :: k in links ==> Kept(g, start, c, links, k)
  }

  ghost predicate Sound(g: Graph, start: string, c: Caps, s: Focus) {
    && NodesSound(g, start, c, s.queue, s.depth) && LinksSound(g, start, c, s.links)
    && (s.truncated ==> |s.depth| >= c.nodes || |s.links| >= c.links)
  }

  lemma {:induction false} OneFurther(g: Graph, start: string, u: string, d: nat, v: string)
    requires u in Ball(g, start, d) && v in Succ(Neighbours(g), u)
    ensures v in Ball(g, start, d + 1)
  {
    assert v in NextOf(Neighbours(g), Ball(g, start, d));
  }

  lemma {:induction false} AddNodeSound(g: Graph, start: string, c: Caps, queue: seq<string>, depth: map<string, nat>,
        v: string, d: nat)
    requires NodesSound(g, start, c, queue, depth) && v !in depth && |depth| < c.nodes
    requires v in g.known && d <= c.depth && v in Ball(g, start, d)
    ensures NodesSound(g, start, c, queue + [v], depth[v := d])
  {
    var now := depth[v := d];
    forall w | w in now ensures Placed(g, start, c, now, w) { StillPlaced(g, start, c, depth, v, d, w); }
    assert forall i :: 0 <= i < |queue + [v]| ==> (queue + [v])[i] in now;
  }

  lemma {:induction false} StillPlaced(g: Graph, start: string, c: Caps, depth: map<string, nat>, v: string, d: nat,
        w: string)
    requires if w == v then v in g.known && d <= c.depth && v in Ball(g, start, d) else Placed(g, start, c, depth, w)
    ensures Placed(g, start, c, depth[v := d], w)
  {
  }

  lemma {:induction false} AddLinkSound(g: Graph, start: string, c: Caps, links: map<string, Link>, e: Link)
    requires LinksSound(g, start, c, links) && |links| < c.links && e in g.links && Near(g, start, c.depth, e)
    ensures LinksSound(g, start, c, links[e.id := e])
  {
    var now := links[e.id := e];
    forall k | k in now ensures Kept(g, start, c, now, k) {
      if k != e.id { assert Kept(g, start, c, links, k); }
    }
  }

  /** Adding an end of a followed link, where there is room for it, keeps the nodes sound. */
  ghost predicate MayAdd(g: Graph, start: string, c: Caps, s: Focus, v: string, d: nat) {
    v in g.known && v !in s.depth && |s.depth| < c.nodes ==>
      NodesSound(g, start, c, s.queue + [v], s.depth[v := d])
  }

  lemma {:induction false} EndMayBeAdded(g: Graph, start: string, c: Caps, s: Focus, id: string, e: Link, v: string)
    requires Sound(g, start, c, s) && id in s.depth && s.depth[id] < c.depth
    requires e in g.links && (e.source == id || e.target == id) && (v == e.source || v == e.target)
    ensures MayAdd(g, start, c, s, v, s.depth[id] + 1)
  {
    if v in g.known && v !in s.depth && |s.depth| < c.nodes {
      assert v in Ball(g, start, s.depth[id] + 1) by {
        assert Placed(g, start, c, s.depth, id);
        LinkJoins(g, e, id, v);
        OneFurther(g, start, id, s.depth[id], v);
      }
      AddNodeSound(g, start, c, s.queue, s.depth, v, s.depth[id] + 1);
    }
  }

  lemma {:induction false} TouchSound(g: Graph, start: string, c: Caps, s: Focus, id: string, v: string)
    requires Sound(g, start, c, s) && id in s.depth && MayAdd(g, start, c, s, v, s.depth[id] + 1)
    ensures Sound(g, start, c, Touch(g.known, c, s, id, v))
  {
  }

  lemma {:induction false} EndIsNear(g: Graph, start: string, c: Caps, s: Focus, id: string, e: Link)
    requires Sound(g, start, c, s) && id in s.depth && s.depth[id] < c.depth && (e.source == id || e.target == id)
    ensures Near(g, start, c.depth, e) && id in g.known
  {
    assert Placed(g, start, c, s.depth, id);
    WithinGrows(Neighbours(g), {start}, s.depth[id], c.depth - 1);
  }

  lemma {:induction false} FollowSound(g: Graph, start: string, c: Caps, s: Focus, id: string, e: Link)
    requires Sound(g, start, c, s) && id in s.depth && s.depth[id] < c.depth && e in g.links
        && (e.source == id || e.target == id)
    ensures Sound(g, start, c, Follow(g.known, c, s, id, e))
  {
    if |s.links| < c.links {
      EndIsNear(g, start, c, s, id, e);
      AddLinkSound(g, start, c, s.links, e);
      var m := s.(links := s.links[e.id := e]);
      var n := Touch(g.known, c, m, id, e.source);
      EndMayBeAdded(g, start, c, m, id, e, e.source);
      TouchSound(g, start, c, m, id, e.source);
      EndMayBeAdded(g, start, c, n, id, e, e.target);
      TouchSound(g, start, c, n, id, e.target);
    }
  }

  lemma {:induction false} FollowAllSound(g: Graph, start: string, c: Caps, s: Focus, id: string, es: seq<Link>)
    requires Sound(g, start, c, s) && id in s.depth && s.depth[id] < c.depth
    requires forall i :: 0 <= i < |es| ==> es[i] in g.links && (es[i].source == id || es[i].target == id)
    ensures Sound(g, start, c, FollowAll(g.known, c, s, id, es))
    decreases |es|
  {
    if es != [] {
      FollowAllSound(g, start, c, s, id, es[..|es| - 1]);
      FollowSound(g, start, c, FollowAll(g.known, c, s, id, es[..|es| - 1]), id, es[|es| - 1]);
    }
  }

  lemma {:induction false} TurnSound(g: Graph, start: string, c: Caps, s: Focus)
    requires Sound(g, start, c, s) && s.queue != []
    ensures Sound(g, start, c, Turn(g, c, s))
  {
    var id, rest := s.queue[0], s.(queue := s.queue[1..]);
    if s.depth[id] < c.depth {
      var es := Incident(g.links, id);
      forall i | 0 <= i < |es| ensures es[i] in g.links && (es[i].source == id || es[i].target == id)
      { IncidentMembers(g.links, id, es[i]); }
      FollowAllSound(g, start, c, rest, id, es);
    }
  }

  // ----- without a cap hit, the search is the plain one -----

  /** The search inside s, with the parents a plain search would also record. */
  function Plain(s: Focus, parent: map<string, string>): Search {
    Search(s.queue, s.depth, parent)
  }

  lemma {:induction false} TruncationStays(known: set<string>, c: Caps, s: Focus, id: string, e: Link)
    requires id in s.depth && s.truncated
    ensures Follow(known, c, s, id, e).truncated
  {
  }

  lemma {:induction false} TouchIsDiscover(known: set<string>, c: Caps, s: Focus, t: Search, id: string, v: string)
    requires id in s.depth && t == Plain(s, t.parent) && !Touch(known, c, s, id, v).truncated
    ensures var r := Touch(known, c, s, id, v);
            && r.links == s.links && !s.truncated
            && (v in known ==> Plain(r, Discover(t, id, v).parent) == Discover(t, id, v))
            && (v !in known ==> v in s.depth || r == s)
  {
  }

  lemma {:induction false} DiscoverTwo(t: Search, id: string, cs: seq<string>, a: seq<string>, b: seq<string>)
    requires id in t.depth && |a| <= 1 && |b| <= 1
    ensures DiscoverAll(t, id, cs + (a + b)) == DiscoverAll(DiscoverAll(DiscoverAll(t, id, cs), id, a), id, b)
  {
    DiscoverOne(t, id, cs, a);
    DiscoverOne(t, id, cs + a, b);
    assert cs + (a + b) == cs + a + b;
  }

  lemma {:induction false} DiscoverOne(t: Search, id: string, cs: seq<string>, a: seq<string>)
    requires id in t.depth && |a| <= 1
    ensures DiscoverAll(t, id, cs + a) == DiscoverAll(DiscoverAll(t, id, cs), id, a)
  {
    if a == [] {
      assert cs + a == cs;
    } else {
      assert (cs + a)[..|cs + a| - 1] == cs && a[..|a| - 1] == [];
    }
  }

  lemma {:induction false} FollowIsDiscover(known: set<string>, c: Caps, s: Focus, t: Search, id: string, e: Link)
    requires id in s.depth && t == Plain(s, t.parent) && s.depth.Keys <= known && !Follow(known, c, s, id, e).truncated
    ensures var r := Follow(known, c, s, id, e);
            var u := DiscoverAll(DiscoverAll(t, id, if e.source in known then [e.source] else []), id,
                if e.target in known then [e.target] else []);
            r.links == s.links[e.id := e] && Plain(r, u.parent) == u
  {
    var m := s.(links := s.links[e.id := e]);
    var n := Touch(known, c, m, id, e.source);
    var a := if e.source in known then [e.source] else [];
    var b := if e.target in known then [e.target] else [];
    TouchIsDiscover(known, c, n, DiscoverAll(t, id, a), id, e.target) by {
      assert !n.truncated;
      TouchIsDiscover(known, c, m, t, id, e.source);
      DiscoverOne(t, id, [], a);
      assert DiscoverAll(t, id, a) == if a == [] then t else Discover(t, id, a[0]);
    }
    assert DiscoverAll(DiscoverAll(t, id, a), id, b) == if b
        == [] then DiscoverAll(t, id, a) else Discover(DiscoverAll(t, id, a), id, b[0]);
  }

  lemma {:induction false} FollowAllIsDiscover(known: set<string>, c: Caps, s: Focus, t: Search, id: string,
        es: seq<Link>)
    requires id in s.depth && t == Plain(s, t.parent) && s.depth.Keys <= known
        && !FollowAll(known, c, s, id, es).truncated
    ensures var r, u := FollowAll(known, c, s, id, es), DiscoverAll(t, id, Ends(es, known));
            Plain(r, u.parent) == u && r.depth.Keys <= known
    decreases |es|
  {
    if es != [] {
      var init, e := es[..|es| - 1], es[|es| - 1];
      var m := FollowAll(known, c, s, id, init);
      if m.truncated { TruncationStays(known, c, m, id, e); }
      FollowAllIsDiscover(known, c, s, t, id, init);
      FollowMore(known, c, m, t, id, Ends(init, known), e);
    }
  }

  lemma {:induction false} FollowMore(known: set<string>, c: Caps, m: Focus, t: Search, id: string, cs: seq<string>,
        e: Link)
    requires id in m.depth && id in t.depth && Plain(m, DiscoverAll(t, id, cs).parent) == DiscoverAll(t, id, cs)
    requires m.depth.Keys <= known && !Follow(known, c, m, id, e).truncated
    ensures var r, u := Follow(known, c, m, id, e), DiscoverAll(t, id, cs + KnownEnds(e, known));
            Plain(r, u.parent) == u && r.depth.Keys <= known
  {
    var a := if e.source in known then [e.source] else [];
    var b := if e.target in known then [e.target] else [];
    FollowIsDiscover(known, c, m, DiscoverAll(t, id, cs), id, e);
    DiscoverTwo(t, id, cs, a, b);
  }

  lemma {:induction false} FollowAllLinks(known: set<string>, c: Caps, s: Focus, id: string, es: seq<Link>, k: string)
    requires id in s.depth && !FollowAll(known, c, s, id, es).truncated
    ensures k in FollowAll(known, c, s, id, es).links <==> k in s.links || exists e :: e in es && e.id == k
    decreases |es|
  {
    if es != [] {
      var init, e := es[..|es| - 1], es[|es| - 1];
      var m := FollowAll(known, c, s, id, init);
      if m.truncated { TruncationStays(known, c, m, id, e); }
      FollowAllLinks(known, c, s, id, init, k);
      assert es == init + [e];
      FollowLink(known, c, m, id, e);
    }
  }

  lemma {:induction false} FollowLink(known: set<string>, c: Caps, s: Focus, id: string, e: Link)
    requires id in s.depth && !Follow(known, c, s, id, e).truncated
    ensures Follow(known, c, s, id, e).links == s.links[e.id := e]
  {
  }

  /** The links met so far are those at the expanded nodes. */
  ghost predicate LinksMet(all: seq<Link>, links: map<string, Link>, done: set<string>) {
    forall e {:trigger MetIffDone(links, done, e)} :: e in all ==> MetIffDone(links, done, e)
  }

  ghost predicate MetIffDone(links: map<string, Link>, done: set<string>, e: Link) {
    e.id in links <==> e.source in done || e.target in done
  }

  /** The expanded nodes lie above level d, and all that is left in the queue once any was dropped does not. */
  ghost predicate CutAt(t: Search, done: set<string>, d: nat, j: nat) {
    && done <= t.depth.Keys && (forall v :: v in done ==> t.depth[v] < d)
    && j <= |t.queue| && (j > 0 ==> t.queue[0] in t.depth && t.depth[t.queue[0]] >= d)
  }

  /** The plain search t agrees with s; j nodes at the full depth have been dropped from its queue. */
  ghost predicate Tracks(adj: Adj, start: string, c: Caps, s: Focus, t: Search, done: set<string>, j: nat) {
    && Searching(adj, {start}, t, done) && CutAt(t, done, c.depth, j)
    && t.depth == s.depth && s.queue == t.queue[j..]
  }

  lemma {:induction false} ExpandingIsFirst(adj: Adj, start: string, c: Caps, s: Focus, t: Search, done: set<string>,
        j: nat)
    requires Tracks(adj, start, c, s, t, done, j) && s.queue != []
    ensures s.queue[0] in s.depth && (s.depth[s.queue[0]] < c.depth ==> j == 0)
  {
    assert s.queue[0] == t.queue[j];
    if j > 0 { assert t.depth[t.queue[0]] <= t.depth[t.queue[j]]; }
  }

  lemma {:induction false} DropTracks(g: Graph, start: string, c: Caps, s: Focus, t: Search, done: set<string>, j: nat)
    requires Tracks(Neighbours(g), start, c, s, t, done, j)
    requires s.queue != [] && s.queue[0] in s.depth && s.depth[s.queue[0]] >= c.depth
    ensures Tracks(Neighbours(g), start, c, Turn(g, c, s), t, done, j + 1)
  {
    assert s.queue[0] == t.queue[j];
  }

  lemma {:induction false} TurnLinks(g: Graph, c: Caps, s: Focus, done: set<string>, id: string, e: Link)
    requires Keyed(g) && e in g.links && id in s.depth && MetIffDone(s.links, done, e)
    requires !FollowAll(g.known, c, s, id, Incident(g.links, id)).truncated
    ensures MetIffDone(FollowAll(g.known, c, s, id, Incident(g.links, id)).links, done + {id}, e)
  {
    FollowAllLinks(g.known, c, s, id, Incident(g.links, id), e.id);
    IncidentMembers(g.links, id, e);
    forall d | d in Incident(g.links, id) && d.id == e.id ensures d == e { IncidentMembers(g.links, id, d); }
  }

  lemma {:induction false} TurnIsExpand(g: Graph, c: Caps, s: Focus, t: Search)
    requires s.queue != [] && s.queue[0] in s.depth && t == Plain(s, t.parent) && s.depth.Keys <= g.known
    requires s.depth[s.queue[0]] < c.depth && !Turn(g, c, s).truncated
    ensures Plain(Turn(g, c, s), Expand(Neighbours(g), t).parent) == Expand(Neighbours(g), t)
  {
    var id, rest := s.queue[0], s.(queue := s.queue[1..]);
    FollowAllIsDiscover(g.known, c, rest, t.(queue := t.queue[1..]), id, Incident(g.links, id));
  }

  lemma {:induction false} ExpandCuts(adj: Adj, roots: set<string>, t: Search, done: set<string>, d: nat)
    requires Searching(adj, roots, t, done) && CutAt(t, done, d, 0) && t.queue != [] && t.depth[t.queue[0]] < d
    ensures Searching(adj, roots, Expand(adj, t), done + {t.queue[0]})
        && CutAt(Expand(adj, t), done + {t.queue[0]}, d, 0)
  {
    var u, all := Expand(adj, t), done + {t.queue[0]};
    assert CutAt(u, all, d, 0) by { ExpandKeepsCut(adj, roots, t, done, d); }
    ExpandKeepsSearching(adj, roots, t, done);
  }

  lemma {:induction false} ExpandKeepsCut(adj: Adj, roots: set<string>, t: Search, done: set<string>, d: nat)
    requires Searching(adj, roots, t, done) && CutAt(t, done, d, 0) && t.queue != [] && t.depth[t.queue[0]] < d
    ensures CutAt(Expand(adj, t), done + {t.queue[0]}, d, 0)
  {
    ExpandGrows(adj, roots, t, done);
  }

  lemma {:induction false} ExpandTracks(g: Graph, start: string, c: Caps, s: Focus, t: Search, done: set<string>)
    requires Tracks(Neighbours(g), start, c, s, t, done, 0) && s.queue != [] && s.depth.Keys <= g.known
    requires s.queue[0] in s.depth && s.depth[s.queue[0]] < c.depth && !Turn(g, c, s).truncated
    ensures Tracks(Neighbours(g), start, c, Turn(g, c, s), Expand(Neighbours(g), t), done + {s.queue[0]}, 0)
  {
    assert t.queue[0..] == t.queue;
    TurnIsExpand(g, c, s, t);
    ExpandCuts(Neighbours(g), {start}, t, done, c.depth);
    var u := Expand(Neighbours(g), t);
    assert u.queue[0..] == u.queue;
  }

  lemma {:induction false} ExpandMeets(g: Graph, c: Caps, s: Focus, done: set<string>)
    requires Keyed(g) && LinksMet(g.links, s.links, done) && s.queue != []
    requires s.queue[0] in s.depth && s.depth[s.queue[0]] < c.depth && !Turn(g, c, s).truncated
    ensures LinksMet(g.links, Turn(g, c, s).links, done + {s.queue[0]})
  {
    forall e | e in g.links ensures MetIffDone(Turn(g, c, s).links, done + {s.queue[0]}, e) {
      assert MetIffDone(s.links, done, e);
      TurnLinks(g, c, s.(queue := s.queue[1..]), done, s.queue[0], e);
    }
  }

  // ----- the finished search -----

  /** A search cut at depth d covers the nodes within d steps ... */
  lemma {:induction false} CutCovers(adj: Adj, roots: set<string>, t: Search, done: set<string>, d: nat)
    requires Searching(adj, roots, t, done) && (t.queue == [] || t.depth[t.queue[0]] >= d)
    ensures Within(adj, roots, d) <= t.depth.Keys
  {
    if t.queue == [] {
      ClosedCoversAll(adj, roots, t.depth.Keys, d);
    } else {
      WithinGrows(adj, roots, d, t.depth[t.queue[0]]);
    }
  }

  /** ... and has expanded exactly those within d - 1 steps. */
  lemma {:induction false} CutExpands(adj: Adj, roots: set<string>, t: Search, done: set<string>, d: nat, v: string)
    requires Searching(adj, roots, t, done) && (t.queue == [] || t.depth[t.queue[0]] >= d)
    requires forall v :: v in done ==> t.depth[v] < d
    ensures v in done <==> d > 0 && v in Within(adj, roots, d - 1)
  {
    if v in done {
      assert AtDistance(adj, roots, v, t.depth[v]);
      WithinGrows(adj, roots, t.depth[v], d - 1);
    } else if d > 0 && v in Within(adj, roots, d - 1) {
      NotYetExpanded(adj, roots, t, done, d, v);
    }
  }

  lemma {:induction false} QueuedBehindHead(adj: Adj, roots: set<string>, t: Search, done: set<string>, v: string)
    requires Searching(adj, roots, t, done) && v in t.depth && v !in done
    ensures t.queue != [] && t.depth[t.queue[0]] <= t.depth[v]
  {
    var i :| 0 <= i < |t.queue| && t.queue[i] == v;
  }

  lemma {:induction false} NotYetExpanded(adj: Adj, roots: set<string>, t: Search, done: set<string>, d: nat, v: string)
    requires Searching(adj, roots, t, done) && (t.queue == [] || t.depth[t.queue[0]] >= d)
    requires d > 0 && v in Within(adj, roots, d - 1)
    ensures v in done
  {
    CutCovers(adj, roots, t, done, d);
    WithinGrows(adj, roots, d - 1, d);
    assert AtDistance(adj, roots, v, t.depth[v]);
    DistanceIsLeast(adj, roots, v, t.depth[v], d - 1);
    if v !in done { QueuedBehindHead(adj, roots, t, done, v); }
  }

  lemma {:induction false} InsideBall(g: Graph, start: string, c: Caps, queue: seq<string>, depth: map<string, nat>)
    requires NodesSound(g, start, c, queue, depth)
    ensures depth.Keys <= Ball(g, start, c.depth) && depth.Keys <= g.known
  {
    forall v | v in depth ensures v in Ball(g, start, c.depth) && v in g.known {
      assert Placed(g, start, c, depth, v);
      WithinGrows(Neighbours(g), {start}, depth[v], c.depth);
    }
  }

  lemma {:induction false} TrackedExpands(adj: Adj, start: string, c: Caps, s: Focus, t: Search, done: set<string>,
        j: nat, v: string)
    requires Tracks(adj, start, c, s, t, done, j) && s.queue == []
    ensures v in done <==> c.depth > 0 && v in Within(adj, {start}, c.depth - 1)
  {
    CutExpands(adj, {start}, t, done, c.depth, v);
  }

  lemma {:induction false} FinishedNodes(g: Graph, start: string, c: Caps, s: Focus, t: Search, done: set<string>,
        j: nat)
    requires Tracks(Neighbours(g), start, c, s, t, done, j) && s.queue == []
        && NodesSound(g, start, c, s.queue, s.depth)
    ensures s.depth.Keys == Ball(g, start, c.depth)
  {
    InsideBall(g, start, c, s.queue, s.depth);
    CutCovers(Neighbours(g), {start}, t, done, c.depth);
  }

  lemma {:induction false} FinishedLinks(g: Graph, start: string, c: Caps, s: Focus, t: Search, done: set<string>,
        j: nat, e: Link)
    requires Tracks(Neighbours(g), start, c, s, t, done, j) && s.queue == [] && LinksMet(g.links, s.links, done)
        && e in g.links
    ensures e.id in s.links <==> Near(g, start, c.depth, e)
  {
    assert MetIffDone(s.links, done, e);
    TrackedExpands(Neighbours(g), start, c, s, t, done, j, e.source);
    TrackedExpands(Neighbours(g), start, c, s, t, done, j, e.target);
  }

  // ----- the program -----

  function ListAt(incident: map<string, seq<Link>>, u: string): seq<Link> {
    if u in incident then incident[u] else []
  }

  function AddAt(incident: map<string, seq<Link>>, u: string, e: Link): map<string, seq<Link>> {
    incident[u := ListAt(incident, u) + [e]]
  }

  function AddLink(incident: map<string, seq<Link>>, e: Link): map<string, seq<Link>> {
    var once := AddAt(incident, e.source, e);
    if e.target != e.source then AddAt(once, e.target, e) else once
  }

  ghost predicate Lists(incident: map<string, seq<Link>>, links: seq<Link>) {
    forall u {:trigger ListAt(incident, u)} :: ListAt(incident, u) == Incident(links, u)
  }

  lemma {:induction false} AddLinkLists(incident: map<string, seq<Link>>, links: seq<Link>, e: Link)
    requires Lists(incident, links)
    ensures Lists(AddLink(incident, e), links + [e])
  {
    forall u ensures ListAt(AddLink(incident, e), u) == Incident(links + [e], u) {
      assert ListAt(incident, u) == Incident(links, u);
      assert (links + [e])[..|links|] == links;
    }
  }

  /** The links at each node, built link by link. */
  method BuildIncident(links: seq<Link>) returns (incident: map<string, seq<Link>>)
    ensures Lists(incident, links)
  {
    incident := map[];
    for i := 0 to |links|
      invariant Lists(incident, links[..i])
    {
      var e := links[i];
      AddLinkLists(incident, links[..i], e);
      incident := AddAt(incident, e.source, e);
      if e.target != e.source { incident := AddAt(incident, e.target, e); }
      assert links[..i + 1] == links[..i] + [e];
    }
    assert links[..|links|] == links;
  }

  method FollowLinks(known: set<string>, c: Caps, s: Focus, id: string, es: seq<Link>) returns (r: Focus)
    requires id in s.depth
    ensures r == FollowAll(known, c, s, id, es)
  {
    r := s;
    for i := 0 to |es|
      invariant id in r.depth && r == FollowAll(known, c, s, id, es[..i])
    {
      assert es[..i + 1][..i] == es[..i];
      var e := es[i];
      if |r.links| >= c.links {
        r := r.(truncated := true);
      } else {
        r := r.(links := r.links[e.id := e]);
        r := Touch(known, c, r, id, e.source);
        r := Touch(known, c, r, id, e.target);
      }
    }
    assert es[..|es|] == es;
  }

  lemma {:induction false} FollowAllCounts(known: set<string>, c: Caps, s: Focus, id: string, es: seq<Link>)
    requires id in s.depth
    ensures var r := FollowAll(known, c, s, id, es);
            && |r.depth| >= |s.depth| && |r.queue| + |s.depth| == |s.queue| + |r.depth|
            && (s.truncated ==> r.truncated)
    decreases |es|
  {
    if es != [] {
      FollowAllCounts(known, c, s, id, es[..|es| - 1]);
      FollowCounts(known, c, FollowAll(known, c, s, id, es[..|es| - 1]), id, es[|es| - 1]);
    }
  }

  lemma {:induction false} FollowCounts(known: set<string>, c: Caps, s: Focus, id: string, e: Link)
    requires id in s.depth
    ensures var r := Follow(known, c, s, id, e);
            && |r.depth| >= |s.depth| && |r.queue| + |s.depth| == |s.queue| + |r.depth|
            && (s.truncated ==> r.truncated)
  {
    if |s.links| < c.links {
      var m := s.(links := s.links[e.id := e]);
      TouchCounts(known, c, m, id, e.source);
      TouchCounts(known, c, Touch(known, c, m, id, e.source), id, e.target);
    }
  }

  lemma {:induction false} TouchCounts(known: set<string>, c: Caps, s: Focus, id: string, v: string)
    requires id in s.depth
    ensures var r := Touch(known, c, s, id, v);
            && |r.depth| >= |s.depth| && |r.queue| + |s.depth| == |s.queue| + |r.depth|
            && (s.truncated ==> r.truncated)
  {
  }

  lemma {:induction false} StartSound(g: Graph, start: string, c: Caps)
    requires start in g.known
    ensures var s := Focus([start], map[start := 0], map[], false);
            && Sound(g, start, c, s) && LinksMet(g.links, s.links, {})
            && Tracks(Neighbours(g), start, c, s, Search([start], map[start := 0], map[]), {}, 0)
  {
    var depth := map[start := 0];
    forall v | v in depth ensures Placed(g, start, c, depth, v) { assert v == start; }
    forall e | e in g.links ensures MetIffDone(map[], {}, e) { }
    var t := Search([start], depth, map[]);
    assert t.queue[0..] == t.queue;
    assert AtDistance(Neighbours(g), {start}, start, t.depth[start]);
  }

  /** The search loop. */
  method Explore(g: Graph, start: string, c: Caps) returns (s: Focus)
    requires Keyed(g) && start in g.known
    ensures Sound(g, start, c, s)
    ensures !s.truncated ==> s.depth.Keys == Ball(g, start, c.depth)
    ensures !s.truncated ==> forall e :: e in g.links ==> (e.id in s.links <==> Near(g, start, c.depth, e))
  {
    var incident := BuildIncident(g.links);
    s := Focus([start], map[start := 0], map[], false);
    ghost var t, done, j := Search([start], map[start := 0], map[]), {}, 0;
    StartSound(g, start, c);
    while s.queue != []
      invariant Sound(g, start, c, s)
      invariant !s.truncated ==> Tracks(Neighbours(g), start, c, s, t, done, j) && LinksMet(g.links, s.links, done)
      decreases |g.known| - |s.depth|, |s.queue|
    {
      ghost var was := s;
      var id := s.queue[0];
      TurnSound(g, start, c, was);
      t, done, j := FollowTurn(g, start, c, was, t, done, j);
      s := s.(queue := s.queue[1..]);
      if s.depth[id] < c.depth {
        FollowAllCounts(g.known, c, s, id, Incident(g.links, id));
        s := FollowLinks(g.known, c, s, id, ListAt(incident, id));
      }
      assert s == Turn(g, c, was);
      KnownCount(g, start, c, s);
    }
    if !s.truncated {
      FinishedNodes(g, start, c, s, t, done, j);
      forall e | e in g.links ensures e.id in s.links <==> Near(g, start, c.depth, e)
      { FinishedLinks(g, start, c, s, t, done, j, e); }
    }
  }

  lemma {:induction false} KnownCount(g: Graph, start: string, c: Caps, s: Focus)
    requires Sound(g, start, c, s)
    ensures |s.depth| <= |g.known|
  {
    InsideBall(g, start, c, s.queue, s.depth);
    SmallerSet(s.depth.Keys, g.known);
  }

  /** How the plain search moves along with one turn. */
  lemma {:induction false} FollowTurn(g: Graph, start: string, c: Caps, s: Focus, t: Search, done: set<string>, j: nat)
    returns (t': Search, done': set<string>, j': nat)
    requires Keyed(g) && Sound(g, start, c, s) && s.queue != []
    requires !s.truncated ==> Tracks(Neighbours(g), start, c, s, t, done, j) && LinksMet(g.links, s.links, done)
    ensures var r := Turn(g, c, s);
            !r.truncated ==> Tracks(Neighbours(g), start, c, r, t', done', j') && LinksMet(g.links, r.links, done')
  {
    t', done', j' := t, done, j;
    var id, rest := s.queue[0], s.(queue := s.queue[1..]);
    assert s.truncated ==> Turn(g, c, s).truncated by { FollowAllCounts(g.known, c, rest, id, Incident(g.links, id)); }
    if !Turn(g, c, s).truncated {
      if s.depth[id] >= c.depth {
        DropTracks(g, start, c, s, t, done, j);
        j' := j + 1;
      } else {
        assert j == 0 by { ExpandingIsFirst(Neighbours(g), start, c, s, t, done, j); }
        assert s.depth.Keys <= g.known by { InsideBall(g, start, c, s.queue, s.depth); }
        ExpandTracks(g, start, c, s, t, done);
        ExpandMeets(g, c, s, done);
        t', done', j' := Expand(Neighbours(g), t), done + {id}, 0;
      }
    }
  }

  /** The links of the search whose two ends were both kept. */
  method Closed(links: map<string, Link>, nodes: set<string>) returns (kept: set<Link>)
    ensures |kept| <= |links|
    ensures forall e :: e in kept <==> e in links.Values && e.source in nodes && e.target in nodes
  {
    kept := {};
    var rest := links.Keys;
    ghost var seen: set<string> := {};
    while rest != {}
      invariant rest !! seen && rest + seen == links.Keys && |kept| <= |seen|
      invariant forall e :: e in kept <==>
          (exists k :: k in seen && links[k] == e) && e.source in nodes && e.target in nodes
      decreases rest
    {
      var k :| k in rest;
      if links[k].source in nodes && links[k].target in nodes { kept := kept + {links[k]}; }
      rest, seen := rest - {k}, seen + {k};
    }
  }

  lemma {:induction false} LinkCount(links: map<string, Link>, all: set<Link>)
    requires forall k :: k in links ==> links[k].id == k && links[k] in all
    ensures |links| <= |all|
    decreases |links|
  {
    if links != map[] {
      var k :| k in links;
      var rest := links - {k};
      LinkCount(rest, all - {links[k]});
    }
  }

  /** What is drawn around start: exact unless truncated, and truncated only when a cap was reached. */
  ghost predicate FocusedOn(g: Graph, start: string, c: Caps, nodes: set<string>, links: set<Link>, truncated: bool) {
    && start in nodes && nodes <= Ball(g, start, c.depth) && links <= Drawn(g, start, c.depth)
    && (!truncated ==> nodes == Ball(g, start, c.depth) && links == Drawn(g, start, c.depth))
    && (truncated ==> |Ball(g, start, c.depth)| >= c.nodes || |Met(g, start, c.depth)| >= c.links)
  }

  /** Links whose ends are both kept, and no more of anything than the caps allow. */
  ghost predicate WithinCaps(g: Graph, c: Caps, nodes: set<string>, links: set<Link>) {
    && nodes <= g.known && (forall e :: e in links ==> e in g.links && e.source in nodes && e.target in nodes)
    && |nodes| <= AtLeastOne(c.nodes) && |links| <= AtLeastOne(c.links)
  }

  lemma {:induction false} SoundLinks(g: Graph, start: string, c: Caps, s: Focus)
    requires Sound(g, start, c, s)
    ensures forall k :: k in s.links ==>
        s.links[k].id == k && s.links[k] in Met(g, start, c.depth) && s.links[k] in g.links
  {
    forall k | k in s.links
      ensures s.links[k].id == k && s.links[k] in Met(g, start, c.depth) && s.links[k] in g.links {
      assert Kept(g, start, c, s.links, k);
    }
  }

  lemma {:induction false} ReachedCap(g: Graph, start: string, c: Caps, s: Focus)
    requires Sound(g, start, c, s) && s.truncated
    ensures |Ball(g, start, c.depth)| >= c.nodes || |Met(g, start, c.depth)| >= c.links
  {
    InsideBall(g, start, c, s.queue, s.depth);
    SmallerSet(s.depth.Keys, Ball(g, start, c.depth));
    SoundLinks(g, start, c, s);
    LinkCount(s.links, Met(g, start, c.depth));
  }

  /** The search and what it keeps, before the final sorts. */
  method Gather(g: Graph, start: string, c: Caps) returns (nodes: set<string>, links: set<Link>, truncated: bool)
    requires Keyed(g) && start in g.known
    ensures FocusedOn(g, start, c, nodes, links, truncated) && WithinCaps(g, c, nodes, links) && |links| <= c.links
  {
    var s := Explore(g, start, c);
    nodes, truncated := s.depth.Keys, s.truncated;
    links := Closed(s.links, nodes);
    InsideBall(g, start, c, s.queue, s.depth);
    SoundLinks(g, start, c, s);
    if truncated {
      ReachedCap(g, start, c, s);
    } else {
      forall e | e in Drawn(g, start, c.depth) ensures e in links {
        assert e.id in s.links && s.links[e.id] == e;
      }
    }
  }

  function LinkSet(links: seq<Link>): set<Link> {
    set e | e in links
  }

  ghost predicate InTime(links: seq<Link>) {
    forall i, j :: 0 <= i < j < |links| ==> links[i].at <= links[j].at
  }

  method InsertByTime(e: Link, links: seq<Link>) returns (r: seq<Link>)
    requires InTime(links)
    ensures InTime(r) && |r| == |links| + 1 && LinkSet(r) == LinkSet(links) + {e}
  {
    var i := |links|;
    while i > 0 && links[i - 1].at > e.at
      invariant 0 <= i <= |links| && forall j :: i <= j < |links| ==> links[j].at > e.at
    {
      i := i - 1;
    }
    r := links[..i] + [e] + links[i..];
    InsertedInTime(links, e, i);
    InsertedLinks(links, e, i);
  }

  lemma {:induction false} InsertedInTime(links: seq<Link>, e: Link, i: nat)
    requires InTime(links) && i <= |links| && (i > 0 ==> links[i - 1].at <= e.at)
    requires forall j :: i <= j < |links| ==> links[j].at > e.at
    ensures InTime(links[..i] + [e] + links[i..])
  {
    var r := links[..i] + [e] + links[i..];
    forall m | 0 <= m < i ensures r[m] == links[m] && links[m].at <= e.at { }
    forall m | i < m < |r| ensures r[m] == links[m - 1] { }
  }

  lemma {:induction false} InsertedLinks(links: seq<Link>, e: Link, i: nat)
    requires i <= |links|
    ensures LinkSet(links[..i] + [e] + links[i..]) == LinkSet(links) + {e}
  {
    assert links == links[..i] + links[i..];
  }

  /** The final sort of the edges; the order among equal times is open. */
  method ByTime(S: set<Link>) returns (r: seq<Link>)
    ensures InTime(r) && LinkSet(r) == S && |r| == |S|
  {
    r := [];
    var rest := S;
    while rest != {}
      invariant rest <= S && InTime(r) && LinkSet(r) == S - rest && |r| == |S| - |rest|
      decreases rest
    {
      var e :| e in rest;
      r := InsertByTime(e, r);
      rest := rest - {e};
    }
  }

  /** The part of `focusedGraph` for a known start node: nodes by ID, links by time, each once. */
  method FocusOn(g: Graph, start: string, c: Caps) returns (nodes: seq<string>, links: seq<Link>, truncated: bool)
    requires Keyed(g) && start in g.known
    ensures StrictlySorted(nodes) && |nodes| == |SetOf(nodes)| && InTime(links)
        && |links| == |LinkSet(links)| <= c.links
    ensures FocusedOn(g, start, c, SetOf(nodes), LinkSet(links), truncated)
    ensures WithinCaps(g, c, SetOf(nodes), LinkSet(links))
  {
    var keptNodes, keptLinks;
    keptNodes, keptLinks, truncated := Gather(g, start, c);
    nodes := Scan(keptNodes);
    links := ByTime(keptLinks);
    assert SetOf(nodes) == keptNodes;
  }

  // ----- capGraph -----

  /** The links between allowed nodes, in order. */
  function Inner(links: seq<Link>, allowed: set<string>): seq<Link> {
    if links == [] then []
    else
      var e := links[|links| - 1];
      Inner(links[..|links| - 1], allowed) + if e.source in allowed && e.target in allowed then [e] else []
  }

  lemma {:induction false} InnerMembers(links: seq<Link>, allowed: set<string>, e: Link)
    ensures e in Inner(links, allowed) <==> e in links && e.source in allowed && e.target in allowed
    decreases |links|
  {
    if links != [] {
      InnerMembers(links[..|links| - 1], allowed, e);
      assert links == links[..|links| - 1] + [links[|links| - 1]];
    }
  }

  lemma {:induction false} InnerGrows(links: seq<Link>, allowed: set<string>, i: nat)
    requires i <= |links|
    ensures Inner(links[..i], allowed) <= Inner(links, allowed)
    decreases |links| - i
  {
    if i < |links| {
      assert links[..i + 1][..i] == links[..i];
      InnerGrows(links, allowed, i + 1);
    } else {
      assert links[..i] == links;
    }
  }

  /** The first nodes, and the first links between them; one link is kept even by a cap of 0. */
  method CapGraph(nodes: seq<string>, links: seq<Link>, maxNodes: nat, maxLinks: nat)
    returns (kept: seq<string>, filtered: seq<Link>, truncated: bool)
    ensures kept == if |nodes| > maxNodes then nodes[..maxNodes] else nodes
    ensures var inner := Inner(links, SetOf(kept));
        filtered == if |inner| > AtLeastOne(maxLinks) then inner[..AtLeastOne(maxLinks)] else inner
    ensures truncated <==>
        |nodes| > maxNodes || |links| > maxLinks || |Inner(links, SetOf(kept))| >= AtLeastOne(maxLinks)
  {
    truncated := |nodes| > maxNodes || |links| > maxLinks;
    kept := if |nodes| > maxNodes then nodes[..maxNodes] else nodes;
    var full;
    filtered, full := FirstInner(links, SetOf(kept), maxLinks);
    truncated := truncated || full;
  }

  /** The filtering loop, which stops as soon as the cap is reached. */
  method FirstInner(links: seq<Link>, allowed: set<string>, maxLinks: nat) returns (filtered: seq<Link>, full: bool)
    ensures var inner := Inner(links, allowed);
            && filtered == (if |inner| > AtLeastOne(maxLinks) then inner[..AtLeastOne(maxLinks)] else inner)
            && (full <==> |inner| >= AtLeastOne(maxLinks))
  {
    filtered := [];
    for i := 0 to |links|
      invariant filtered == Inner(links[..i], allowed) && |filtered| < AtLeastOne(maxLinks)
    {
      assert links[..i + 1][..i] == links[..i];
      if links[i].source in allowed && links[i].target in allowed {
        filtered := filtered + [links[i]];
        if |filtered| >= maxLinks {
          InnerGrows(links, allowed, i + 1);
          return filtered, true;
        }
      }
    }
    assert links[..|links|] == links;
    full := false;
  }

  /** Without a usable start node the whole graph is drawn, up to the caps. */
  ghost predicate Whole(g: Graph, c: Caps, nodes: set<string>, links: set<Link>, truncated: bool) {
    && (!truncated ==> nodes == g.known && links == set e | e in g.links && e.source in g.known && e.target in g.known)
    && (truncated ==> |g.known| > c.nodes || |g.links| >= c.links)
  }

  /** `focusedGraph`; order lists the known nodes once each. */
  method FocusedGraph(startID: string, order: seq<string>, g: Graph, c: Caps)
    returns (nodes: seq<string>, links: seq<Link>, truncated: bool)
    requires Keyed(g) && SetOf(order) == g.known && |order| == |g.known|
    ensures WithinCaps(g, c, SetOf(nodes), LinkSet(links))
    ensures |nodes| <= AtLeastOne(c.nodes) && |links| <= AtLeastOne(c.links)
    ensures if startID != "" && startID in g.known
            then FocusedOn(g, startID, c, SetOf(nodes), LinkSet(links), truncated) && StrictlySorted(nodes)
                && InTime(links)
            else Whole(g, c, SetOf(nodes), LinkSet(links), truncated)
  {
    if startID == "" || startID !in g.known {
      nodes, links, truncated := CapGraph(order, g.links, c.nodes, c.links);
      NodeBound(nodes);
      LinkBound(links);
      var allowed := SetOf(nodes);
      forall e: Link
        ensures e in Inner(g.links, allowed) <==> e in g.links && e.source in allowed && e.target in allowed
      { InnerMembers(g.links, allowed, e); }
      InnerBound(g.links, allowed);
    } else {
      nodes, links, truncated := FocusOn(g, startID, c);
    }
  }

  lemma {:induction false} InnerBound(links: seq<Link>, allowed: set<string>)
    ensures |Inner(links, allowed)| <= |links|
    decreases |links|
  {
    if links != [] { InnerBound(links[..|links| - 1], allowed); }
  }

  lemma {:induction false} NodeBound(nodes: seq<string>)
    ensures |SetOf(nodes)| <= |nodes|
    decreases |nodes|
  {
    if nodes != [] {
      NodeBound(nodes[..|nodes| - 1]);
      assert SetOf(nodes) == SetOf(nodes[..|nodes| - 1]) + {nodes[|nodes| - 1]};
    }
  }

  lemma {:induction false} LinkBound(links: seq<Link>)
    ensures |LinkSet(links)| <= |links|
    decreases |links|
  {
    if links != [] {
      LinkBound(links[..|links| - 1]);
      assert LinkSet(links) == LinkSet(links[..|links| - 1]) + {links[|links| - 1]};
    }
  }
}
