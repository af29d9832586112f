/** `client/src/core/session_tree.ts`: the one tree of the sessions pane. The source's
    loop over an explicit stack is proved to draw the preorder of `SessionForest`. */
module SessionTree {
  import opened Decimals
  import opened OrderedMaps
  import opened SessionForest

  /** Where a session began: a room, and the number of the line that opened it. */
  datatype Line = Line(room: string, began: nat)

  /** A session as the sessions answer gives it. */
  datatype Stretch = Stretch(line: Line, parent: Option<Line>, branched: bool)

  datatype Node = Node(stretch: Stretch, key: Key, depth: nat, children: bool, delegated: bool)

  datatype Frame = Frame(key: Key, depth: nat, exiting: bool)

  function KeyAt(line: Line): Key {
    Key(line.room + ":" + Decimal(line.began))
  }

  function KeyOf(s: Stretch): Key {
    KeyAt(s.line)
  }

  /** Where the last colon stands. */
  function LastColon(s: string): int {
    if s == [] then -1 else if s[|s| - 1] == ':' then |s| - 1 else LastColon(s[..|s| - 1])
  }

  lemma {:induction false} LastColonAfter(room: string, digits: string)
    requires forall i :: 0 <= i < |digits| ==> IsDigit(digits[i])
    ensures LastColon(room + ":" + digits) == |room|
    decreases |digits|
  {
    var s := room + ":" + digits;
    if digits != [] {
      assert s[|s| - 1] == digits[|digits| - 1];
      assert s[..|s| - 1] == room + ":" + digits[..|digits| - 1];
      LastColonAfter(room, digits[..|digits| - 1]);
    }
  }

  /** Two sessions share a key only when they are the same line of the same room. */
  lemma KeysTellApart(a: Line, b: Line)
    requires KeyAt(a) == KeyAt(b)
    ensures a == b
  {
    var s := KeyAt(a).text;
    LastColonAfter(a.room, Decimal(a.began));
    LastColonAfter(b.room, Decimal(b.began));
    assert a.room == s[..LastColon(s)] == b.room;
    assert Decimal(a.began) == s[LastColon(s) + 1..] == Decimal(b.began);
    NumberUndoesDecimal(a.began);
    NumberUndoesDecimal(b.began);
  }

  /** The session each key names: the last one that has it. */
  function ByKey(all: seq<Stretch>): (known: map<Key, Stretch>)
    ensures forall k :: k in known ==> KeyOf(known[k]) == k && known[k] in all
    ensures forall s :: s in all ==> KeyOf(s) in known
  {
    if all == [] then map[]
    else
      var last := |all| - 1;
      assert all == all[..last] + [all[last]];
      ByKey(all[..last])[KeyOf(all[last]) := all[last]]
  }

  /** The session a session hangs below, when the answer names one that is known. */
  function ParentOf(s: Stretch, keys: set<Key>): Option<Key> {
    if s.parent.Some? && KeyAt(s.parent.value) in keys then Some(KeyAt(s.parent.value)) else None
  }

  function ChildrenOf(all: seq<Stretch>, keys: set<Key>, parent: Option<Key>): seq<Key> {
    if all == [] then []
    else
      var last := |all| - 1;
      ChildrenOf(all[..last], keys, parent)
      + (if ParentOf(all[last], keys) == parent then [KeyOf(all[last])] else [])
  }

  function GraphOf(all: seq<Stretch>): Graph {
    var keys := ByKey(all).Keys;
    Graph(keys, ChildrenOf(all, keys, None), map k | k in keys :: ChildrenOf(all, keys, Some(k)))
  }

  lemma {:induction false} ChildrenAre(all: seq<Stretch>, keys: set<Key>, parent: Option<Key>, k: Key)
    ensures k in ChildrenOf(all, keys, parent) <==> exists s :: s in all && KeyOf(s) == k && ParentOf(s, keys) == parent
  {
    if all != [] {
      var last := |all| - 1;
      assert all == all[..last] + [all[last]];
      ChildrenAre(all[..last], keys, parent, k);
    }
  }

  lemma Grows(all: seq<Stretch>)
    ensures WellFormed(GraphOf(all))
  {
    var g := GraphOf(all);
    forall k | k in g.roots ensures k in g.keys { ChildrenAre(all, g.keys, None, k); }
    forall p, k | p in g.keys && k in Kids(g, p) ensures k in g.keys { ChildrenAre(all, g.keys, Some(p), k); }
  }

  ghost predicate Unique(all: seq<Stretch>) {
    forall i, j :: 0 <= i < j < |all| ==> KeyOf(all[i]) != KeyOf(all[j])
  }

  lemma UniqueNames(all: seq<Stretch>, s: Stretch, t: Stretch)
    requires Unique(all) && s in all && t in all && KeyOf(s) == KeyOf(t)
    ensures s == t
  {}

  lemma {:induction false} ChildrenDistinct(all: seq<Stretch>, keys: set<Key>, parent: Option<Key>)
    requires Unique(all)
    ensures Distinct(ChildrenOf(all, keys, parent))
  {
    if all != [] {
      var last := |all| - 1;
      var before := all[..last];
      ChildrenDistinct(before, keys, parent);
      ChildrenAre(before, keys, parent, KeyOf(all[last]));
      assert forall s :: s in before ==> KeyOf(s) != KeyOf(all[last]);
    }
  }

  lemma ChildHasOneParent(all: seq<Stretch>, keys: set<Key>, a: Option<Key>, b: Option<Key>, k: Key)
    requires Unique(all) && k in ChildrenOf(all, keys, a) && k in ChildrenOf(all, keys, b)
    ensures a == b
  {
    ChildrenAre(all, keys, a, k);
    ChildrenAre(all, keys, b, k);
    var s :| s in all && KeyOf(s) == k && ParentOf(s, keys) == a;
    var t :| t in all && KeyOf(t) == k && ParentOf(t, keys) == b;
    UniqueNames(all, s, t);
  }

  /** With unique keys every session hangs below one parent, or is a root. */
  lemma GrowsForest(all: seq<Stretch>)
    requires Unique(all)
    ensures OneParent(GraphOf(all))
  {
    var g := GraphOf(all);
    forall p, q, k | k in Kids(g, p) && k in Kids(g, q) ensures p == q {
      ChildHasOneParent(all, g.keys, Some(p), Some(q), k);
    }
    forall p, k | k in Kids(g, p) ensures k !in g.roots {
      if k in g.roots { ChildHasOneParent(all, g.keys, Some(p), None, k); }
    }
    ChildrenDistinct(all, g.keys, None);
    forall p ensures Distinct(Kids(g, p)) { ChildrenDistinct(all, g.keys, Some(p)); }
  }

  // ------------------------------------------------------------ what is collapsed

  /** A session that delegated one still known is collapsed until a person opens it. */
  function DefaultCollapsed(all: seq<Stretch>): set<Key> {
    var known := set s | s in all :: KeyOf(s);
    set s | s in all && s.parent.Some? && !s.branched && KeyAt(s.parent.value) in known :: KeyAt(s.parent.value)
  }

  /** What a person last said of a session decides; what is not said of is collapsed
      by default. */
  method CollapsedOf(all: seq<Stretch>, overrides: map<Key, bool>) returns (held: set<Key>)
    ensures forall k :: k in held <==> if k in overrides then overrides[k] else k in DefaultCollapsed(all)
  {
    held := set k | k in DefaultCollapsed(all) && k !in overrides;
    var entries := overrides.Keys;
    while entries != {}
      invariant entries <= overrides.Keys
      invariant forall k ::
        k in held <==> if k in overrides then k !in entries && overrides[k] else k in DefaultCollapsed(all)
      decreases |entries|
    {
      var key :| key in entries;
      entries := entries - {key};
      if overrides[key] { held := held + {key}; }
    }
  }

  // ------------------------------------------------------------ the loops

  function At(children: map<Option<Key>, seq<Key>>, p: Option<Key>): seq<Key> {
    if p in children then children[p] else []
  }

  /** The children of every session, in the order the sessions came. */
  method ChildrenByParent(all: seq<Stretch>, byKey: map<Key, Stretch>) returns (children: map<Option<Key>, seq<Key>>)
    ensures forall p :: At(children, p) == ChildrenOf(all, byKey.Keys, p)
  {
    hide ParentOf;
    children := map[];
    for i := 0 to |all|
      invariant forall p :: At(children, p) == ChildrenOf(all[..i], byKey.Keys, p)
    {
      var upTo := all[..i + 1];
      assert upTo[..i] == all[..i] && upTo[i] == all[i];
      var parent := ParentOf(all[i], byKey.Keys);
      children := children[parent := At(children, parent) + [KeyOf(all[i])]];
    }
    assert all[..|all|] == all;
  }

  lemma {:induction false} ClosedHoldsWays(g: Graph, held: set<Key>, way: seq<Key>, k: Key)
    requires WellFormed(g) && WayTo(g, {}, way, k)
    requires forall r :: r in g.roots ==> r in held
    requires forall p, c :: p in held && c in Kids(g, p) ==> c in held
    ensures k in held
    decreases |way|
  {
    if |way| > 1 {
      WayPrefix(g, {}, way, k);
      ClosedHoldsWays(g, held, way[..|way| - 1], way[|way| - 2]);
    }
  }

  /** All found so far hangs below a root, and nothing below it is forgotten. */
  ghost predicate Climbed(g: Graph, anchored: set<Key>, pending: seq<Key>) {
    && (forall k :: k in anchored || k in pending ==> k in g.keys && Rooted(g, k))
    && (forall r :: r in g.roots ==> r in anchored || r in pending)
    && (forall p, c :: p in anchored && c in Kids(g, p) ==> c in anchored || c in pending)
  }

  lemma ClimbedAtRoots(g: Graph)
    requires WellFormed(g)
    ensures Climbed(g, {}, g.roots)
  {
    forall r | r in g.roots ensures Rooted(g, r) { assert WayTo(g, {}, [r], r); }
  }

  lemma ClimbedOn(g: Graph, anchored: set<Key>, pending: seq<Key>, key: Key)
    requires WellFormed(g) && Climbed(g, anchored, pending + [key])
    ensures key in g.keys
    ensures key in anchored ==> Climbed(g, anchored, pending)
    ensures Climbed(g, anchored + {key}, pending + Kids(g, key))
  {
    hide WayTo, Rooted;
    assert key in pending + [key];
    assert forall k :: k in pending + [key] <==> k in pending || k == key;
    assert forall k :: k in pending + Kids(g, key) <==> k in pending || k in Kids(g, key);
    forall c | c in Kids(g, key) ensures Rooted(g, c) { KidIsRooted(g, key, c); }
  }

  lemma KidIsRooted(g: Graph, p: Key, c: Key)
    requires p in g.keys && Rooted(g, p) && c in Kids(g, p)
    ensures Rooted(g, c)
  {
    var way :| WayTo(g, {}, way, p);
    assert WayTo(g, {}, way + [c], c);
  }

  /** What some root leads down to. */
  ghost function Anchor(g: Graph): set<Key> { set k | k in g.keys && Rooted(g, k) }

  lemma ClimbedAll(g: Graph, anchored: set<Key>)
    requires WellFormed(g) && Climbed(g, anchored, [])
    ensures anchored == Anchor(g)
  {
    forall way, k | WayTo(g, {}, way, k) ensures k in anchored { ClosedHoldsWays(g, anchored, way, k); }
  }

  /** The sessions some way down from a root leads to. */
  method Anchored(g: Graph) returns (anchored: set<Key>)
    requires WellFormed(g)
    ensures anchored == Anchor(g)
  {
    hide Rooted, WayTo, WellFormed, Climbed;
    anchored := {};
    var pending := g.roots;
    ClimbedAtRoots(g);
    while |pending| > 0
      invariant anchored <= g.keys && Climbed(g, anchored, pending)
      decreases g.keys - anchored, |pending|
    {
      var key := pending[|pending| - 1];
      assert pending == pending[..|pending| - 1] + [key];
      pending := pending[..|pending| - 1];
      ClimbedOn(g, anchored, pending, key);
      if key !in anchored {
        assert key in g.keys - anchored && key !in g.keys - (anchored + {key});
        anchored := anchored + {key};
        pending := pending + Kids(g, key);
      }
    }
    ClimbedAll(g, anchored);
  }

  /** The sessions no way down leads to, in their order: parent links that only go in
      circles. */
  function Loose(all: seq<Stretch>, anchored: set<Key>): seq<Key> {
    if all == [] then []
    else (if KeyOf(all[0]) in anchored then [] else [KeyOf(all[0])]) + Loose(all[1..], anchored)
  }

  lemma {:induction false} LooseAre(all: seq<Stretch>, anchored: set<Key>, k: Key)
    ensures k in Loose(all, anchored) <==> k !in anchored && exists s :: s in all && KeyOf(s) == k
  {
    if all != [] {
      LooseAre(all[1..], anchored, k);
      assert all == [all[0]] + all[1..];
    }
  }

  /** What is left to draw: frames from the top of the stack down. */
  function Unwind(g: Graph, shut: set<Key>, stack: seq<Frame>, seen: set<Key>): Walk {
    if stack == [] then Walk([], seen)
    else
      var top, under := stack[|stack| - 1], stack[..|stack| - 1];
      if top.exiting then Unwind(g, shut, under, seen)
      else
        var first := Visit(g, shut, [top.key], top.depth, seen);
        var rest := Unwind(g, shut, under, first.seen);
        Walk(first.rows + rest.rows, rest.seen)
  }

  /** The frames of `keys`, the first on top. */
  function Stacked(keys: seq<Key>, depth: nat): seq<Frame> {
    if keys == [] then [] else Stacked(keys[1..], depth) + [Frame(keys[0], depth, false)]
  }

  lemma VisitNone(g: Graph, shut: set<Key>, depth: nat, seen: set<Key>)
    ensures Visit(g, shut, [], depth, seen) == Walk([], seen)
  {}

  lemma {:induction false} UnwindStacked(g: Graph, shut: set<Key>, under: seq<Frame>, keys: seq<Key>, depth: nat, seen: set<Key>)
    ensures var first := Visit(g, shut, keys, depth, seen);
            var rest := Unwind(g, shut, under, first.seen);
            Unwind(g, shut, under + Stacked(keys, depth), seen) == Walk(first.rows + rest.rows, rest.seen)
    decreases |keys|
  {
    hide Visit;
    if keys == [] {
      assert [] + Unwind(g, shut, under, seen).rows == Unwind(g, shut, under, seen).rows;
      VisitNone(g, shut, depth, seen);
      assert under + Stacked(keys, depth) == under;
    } else {
      var stack, top := under + Stacked(keys, depth), Frame(keys[0], depth, false);
      assert stack[|stack| - 1] == top && stack[..|stack| - 1] == under + Stacked(keys[1..], depth);
      var first := Visit(g, shut, [keys[0]], depth, seen);
      UnwindStacked(g, shut, under, keys[1..], depth, first.seen);
      VisitSplits(g, shut, [keys[0]], keys[1..], depth, seen);
      assert [keys[0]] + keys[1..] == keys;
      var second := Visit(g, shut, keys[1..], depth, first.seen);
      var rest := Unwind(g, shut, under, second.seen);
      assert first.rows + (second.rows + rest.rows) == (first.rows + second.rows) + rest.rows;
    }
  }

  /** Opening a session: its row, and its children above what was left. */
  lemma UnwindOpens(g: Graph, shut: set<Key>, under: seq<Frame>, key: Key, depth: nat, seen: set<Key>)
    requires key in g.keys && key !in seen
    ensures var was := Unwind(g, shut, under + [Frame(key, depth, false)], seen);
            var now := Unwind(g, shut,
              if key in shut then under
              else under + [Frame(key, depth, true)] + Stacked(Kids(g, key), depth + 1), seen + {key});
            was == Walk([Row(key, depth)] + now.rows, now.seen)
  {
    hide Visit, Stacked;
    var stack, top := under + [Frame(key, depth, false)], Frame(key, depth, false);
    assert stack[|stack| - 1] == top && stack[..|stack| - 1] == under;
    VisitOne(g, shut, key, depth, seen);
    var below := Below(g, shut, key, depth, seen);
    var rest := Unwind(g, shut, under, below.seen);
    assert ([Row(key, depth)] + below.rows) + rest.rows == [Row(key, depth)] + (below.rows + rest.rows);
    if key !in shut {
      var exit := under + [Frame(key, depth, true)];
      assert exit[|exit| - 1] == Frame(key, depth, true) && exit[..|exit| - 1] == under;
      UnwindStacked(g, shut, exit, Kids(g, key), depth + 1, seen + {key});
    } else {
      assert below.rows + rest.rows == rest.rows;
    }
  }

  function NodeOf(g: Graph, s: Stretch, row: Row): Node {
    Node(s, row.key, row.depth, Kids(g, row.key) != [], s.parent.Some? && !s.branched)
  }

  /** Each node shows its row's session. */
  ghost predicate Shows(all: seq<Stretch>, nodes: seq<Node>, rows: seq<Row>) {
    && |nodes| == |rows|
    && forall i :: 0 <= i < |rows| ==>
      rows[i].key in ByKey(all) && nodes[i] == NodeOf(GraphOf(all), ByKey(all)[rows[i].key], rows[i])
  }

  method Push(stack: seq<Frame>, keys: seq<Key>, depth: nat) returns (grown: seq<Frame>)
    ensures grown == stack + Stacked(keys, depth)
  {
    grown := stack;
    var i := |keys|;
    assert keys[i..] == [];
    while i > 0
      invariant 0 <= i <= |keys|
      invariant grown == stack + Stacked(keys[i..], depth)
    {
      i := i - 1;
      assert keys[i..][0] == keys[i] && keys[i..][1..] == keys[i + 1..];
      grown := grown + [Frame(keys[i], depth, false)];
    }
    assert keys[0..] == keys;
  }

  /** The rows of the tree: the forest under the roots, then every session no root
      leads to, each session once. */
  ghost function Tree(all: seq<Stretch>, shut: set<Key>): seq<Row> {
    var g := GraphOf(all);
    Visit(g, shut, g.roots + Loose(all, Anchor(g)), 0, {}).rows
  }

  /** One turn of the loop over the stack. */
  method Turn(all: seq<Stretch>, g: Graph, byKey: map<Key, Stretch>, shut: set<Key>, stack: seq<Frame>,
              path: set<Key>, visited: set<Key>, nodes: seq<Node>, ghost rows: seq<Row>)
    returns (stack': seq<Frame>, path': set<Key>, visited': set<Key>, nodes': seq<Node>, ghost rows': seq<Row>)
    requires g == GraphOf(all) && byKey == ByKey(all) && WellFormed(g)
    requires |stack| > 0 && path <= visited <= g.keys && Shows(all, nodes, rows)
    ensures path' <= visited' <= g.keys && visited <= visited' && Shows(all, nodes', rows')
    ensures visited' == visited ==> |stack'| < |stack|
    ensures rows' + Unwind(g, shut, stack', visited').rows == rows + Unwind(g, shut, stack, visited).rows
  {
    hide Visit, Stacked, GraphOf, ByKey, WellFormed;
    var frame := stack[|stack| - 1];
    stack', path', visited', nodes', rows' := stack[..|stack| - 1], path, visited, nodes, rows;
    assert stack == stack' + [frame];
    if frame.exiting {
      path' := path - {frame.key};
      return;
    }
    VisitOne(g, shut, frame.key, frame.depth, visited);
    if frame.key in path || frame.key in visited {
      return;
    }
    if frame.key !in byKey {
      KeysAreKnown(all);
      return;
    }
    KeysAreKnown(all);
    UnwindOpens(g, shut, stack', frame.key, frame.depth, visited);
    visited' := visited + {frame.key};
    var branches := Kids(g, frame.key);
    var row := Row(frame.key, frame.depth);
    nodes' := nodes + [NodeOf(g, byKey[frame.key], row)];
    rows' := rows + [row];
    if frame.key !in shut {
      path' := path + {frame.key};
      stack' := Push(stack' + [Frame(frame.key, frame.depth, true)], branches, frame.depth + 1);
    }
    assert rows + ([row] + Unwind(g, shut, stack', visited').rows) == rows' + Unwind(g, shut, stack', visited').rows;
  }

  lemma KeysAreKnown(all: seq<Stretch>)
    ensures GraphOf(all).keys == ByKey(all).Keys
  {}

  /** The graph the loops walk is the one the sessions make. */
  method Graphed(all: seq<Stretch>, byKey: map<Key, Stretch>) returns (g: Graph)
    requires byKey == ByKey(all)
    ensures g == GraphOf(all)
  {
    hide ByKey, ChildrenOf;
    var children := ChildrenByParent(all, byKey);
    g := Graph(byKey.Keys, At(children, None), map k | k in byKey.Keys :: At(children, Some(k)));
    assert g.kids == GraphOf(all).kids;
  }

  /** The explicit stack draws exactly the recursive preorder, for every set of
      parent links, and stops. */
  method SessionTree(all: seq<Stretch>, shut: set<Key>) returns (nodes: seq<Node>)
    ensures Shows(all, nodes, Tree(all, shut))
  {
    hide Visit, Unwind, Shows, Rooted, WellFormed, ByKey, GraphOf, ChildrenOf, Loose, Stacked;
    var byKey := ByKey(all);
    var g := Graphed(all, byKey);
    Grows(all);
    var anchored := Anchored(g);
    var loose := Unrooted(all, anchored);
    var stack := Push([], g.roots + loose, 0);
    assert stack == Stacked(g.roots + loose, 0);
    var path, visited: set<Key> := {}, {};
    nodes := [];
    ghost var rows: seq<Row> := [];
    Starts(g, shut, g.roots + loose);
    ShowsNone(all);
    assert rows + Unwind(g, shut, stack, visited).rows == Tree(all, shut);
    while |stack| > 0
      invariant path <= visited <= g.keys && Shows(all, nodes, rows)
      invariant rows + Unwind(g, shut, stack, visited).rows == Tree(all, shut)
      decreases g.keys - visited, |stack|
    {
      ghost var was := visited;
      stack, path, visited, nodes, rows := Turn(all, g, byKey, shut, stack, path, visited, nodes, rows);
      Shrinks(g.keys, was, visited);
    }
    Ends(g, shut, visited);
    assert stack == [];
    assert rows + [] == rows;
  }

  lemma Ends(g: Graph, shut: set<Key>, seen: set<Key>)
    ensures Unwind(g, shut, [], seen).rows == []
  {}

  lemma ShowsNone(all: seq<Stretch>)
    ensures Shows(all, [], [])
  {}

  lemma Shrinks(keys: set<Key>, was: set<Key>, now: set<Key>)
    requires was <= now <= keys
    ensures now != was ==> keys - now < keys - was
  {
    if now != was {
      var k :| k in now && k !in was;
      assert k in keys - was && k !in keys - now;
    }
  }

  lemma Starts(g: Graph, shut: set<Key>, todo: seq<Key>)
    ensures Unwind(g, shut, Stacked(todo, 0), {}) == Visit(g, shut, todo, 0, {})
  {
    hide Visit, Stacked;
    UnwindStacked(g, shut, [], todo, 0, {});
    assert [] + Stacked(todo, 0) == Stacked(todo, 0);
    var first := Visit(g, shut, todo, 0, {});
    assert first.rows + [] == first.rows;
  }

  method Unrooted(all: seq<Stretch>, anchored: set<Key>) returns (loose: seq<Key>)
    ensures loose == Loose(all, anchored)
  {
    loose := [];
    for i := 0 to |all|
      invariant loose + Loose(all[i..], anchored) == Loose(all, anchored)
    {
      assert all[i..][0] == all[i] && all[i..][1..] == all[i + 1..];
      var key := KeyOf(all[i]);
      if key !in anchored {
        assert loose + ([key] + Loose(all[i + 1..], anchored)) == (loose + [key]) + Loose(all[i + 1..], anchored);
        loose := loose + [key];
      }
    }
    assert loose + [] == loose;
  }

  // ------------------------------------------------------------ what the tree shows

  lemma {:induction false} LooseStaysLoose(g: Graph, shut: set<Key>, todo: seq<Key>, depth: nat, seen: set<Key>, x: Key)
    requires WellFormed(g) && OneParent(g)
    requires forall k :: k in todo ==> !Rooted(g, k)
    requires x in Visit(g, shut, todo, depth, seen).seen - seen
    ensures !Rooted(g, x)
    decreases g.keys - seen, |todo|
  {
    hide Rooted, WayTo, OneParent, WellFormed;
    var k, rest := todo[0], todo[1..];
    assert forall y :: y in rest ==> y in todo;
    if k in seen || k !in g.keys {
      LooseStaysLoose(g, shut, rest, depth, seen, x);
    } else {
      var below := Below(g, shut, k, depth, seen);
      assert k in g.keys - seen && k !in g.keys - (seen + {k});
      if x !in below.seen {
        LooseStaysLoose(g, shut, rest, depth, below.seen, x);
      } else if x != k {
        forall y | y in Kids(g, k) ensures !Rooted(g, y) {
          if Rooted(g, y) { RootedParent(g, k, y); }
        }
        LooseStaysLoose(g, shut, Kids(g, k), depth + 1, seen + {k}, x);
      }
    }
  }

  lemma RootedParent(g: Graph, p: Key, c: Key)
    requires OneParent(g) && Rooted(g, c) && c in Kids(g, p)
    ensures Rooted(g, p)
  {
    var way :| WayTo(g, {}, way, c);
    assert |way| > 1;
    WayPrefix(g, {}, way, c);
    assert way[|way| - 2] == p;
    assert WayTo(g, {}, way[..|way| - 1], p);
  }

  lemma LooseIsUnrooted(all: seq<Stretch>, k: Key)
    requires k in Loose(all, Anchor(GraphOf(all)))
    ensures !Rooted(GraphOf(all), k)
  {
    hide Rooted, Loose;
    LooseAre(all, Anchor(GraphOf(all)), k);
    assert k in GraphOf(all).keys;
  }

  /** With unique keys the tree opens with the plain preorder of the forest under the
      roots, cut below collapsed sessions; what follows hangs below no root. */
  lemma TreeIsForest(all: seq<Stretch>, shut: set<Key>)
    requires Unique(all)
    ensures var g := GraphOf(all);
            var forest := Preorder(g, shut, g.roots, []);
            var tree := Tree(all, shut);
            && forest <= tree
            && (forall k :: k in KeysOf(forest) <==> exists way :: WayTo(g, shut, way, k))
            && (forall i :: |forest| <= i < |tree| ==> !Rooted(g, tree[i].key))
  {
    hide Visit, Preorder, OneParent, WayTo, GraphOf, Rooted, WellFormed;
    var g := GraphOf(all);
    var loose := Loose(all, Anchor(g));
    Grows(all);
    GrowsForest(all);
    VisitIsPreorder(g, shut);
    VisitSplits(g, shut, g.roots, loose, 0, {});
    var first := Visit(g, shut, g.roots, 0, {});
    var second := Visit(g, shut, loose, 0, first.seen);
    assert Tree(all, shut) == first.rows + second.rows;
    forall k ensures k in KeysOf(first.rows) <==> exists way :: WayTo(g, shut, way, k) { DrawnIffReached(g, shut, k); }
    forall k | k in loose ensures !Rooted(g, k) {
      LooseIsUnrooted(all, k);
    }
    VisitOnce(g, shut, loose, 0, first.seen);
    forall i | 0 <= i < |second.rows| ensures !Rooted(g, second.rows[i].key) {
      assert second.rows[i] in second.rows;
      assert second.rows[i].key in KeysOf(second.rows);
      LooseStaysLoose(g, shut, loose, 0, first.seen, second.rows[i].key);
    }
  }

  /** With nothing collapsed every session is drawn exactly once, even where parent
      links only go in circles. */
  lemma TreeShowsAll(all: seq<Stretch>)
    ensures Once(Tree(all, {}))
    ensures KeysOf(Tree(all, {})) == set s | s in all :: KeyOf(s)
  {
    hide Visit, Rooted, WellFormed;
    var g := GraphOf(all);
    Grows(all);
    forall k | k in g.keys && !Rooted(g, k) ensures k in Loose(all, Anchor(g)) { LooseAre(all, Anchor(g), k); }
    EverySessionOnce(g, Loose(all, Anchor(g)));
  }
}
