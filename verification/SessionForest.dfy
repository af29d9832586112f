/** The preorder `sessionTree` draws, told by recursion: what the explicit stack of
    `client/src/core/session_tree.ts` is proved to walk, over any parent links. */
module SessionForest {
  import opened OrderedMaps

  /** A session's key: its room and the line it began at, in one spelling. */
  datatype Key = Key(text: string)

  /** The sessions' keys, the ones no other is the parent of, and each one's
      children, in the order the sessions came. */
  datatype Graph = Graph(keys: set<Key>, roots: seq<Key>, kids: map<Key, seq<Key>>)

  /** A session drawn, and how deep. */
  datatype Row = Row(key: Key, depth: nat)

  datatype Walk = Walk(rows: seq<Row>, seen: set<Key>)

  function Kids(g: Graph, k: Key): seq<Key> {
    if k in g.kids then g.kids[k] else []
  }

  ghost predicate WellFormed(g: Graph) {
    (forall k :: k in g.roots ==> k in g.keys)
    && (forall p, k :: p in g.keys && k in Kids(g, p) ==> k in g.keys)
  }

  /** Preorder of the sessions in `todo`, each once: a session, what hangs below it
      unless it is collapsed, then the rest. */
  function Visit(g: Graph, shut: set<Key>, todo: seq<Key>, depth: nat, seen: set<Key>): (w: Walk)
    ensures seen <= w.seen
    decreases g.keys - seen, |todo|
  {
    if todo == [] then Walk([], seen)
    else
      var k := todo[0];
      if k in seen || k !in g.keys then Visit(g, shut, todo[1..], depth, seen)
      else
        var below := if k in shut then Walk([], seen + {k}) else Visit(g, shut, Kids(g, k), depth + 1, seen + {k});
        assert k in g.keys - seen && k !in g.keys - below.seen;
        var rest := Visit(g, shut, todo[1..], depth, below.seen);
        Walk([Row(k, depth)] + below.rows + rest.rows, rest.seen)
  }

  /** What hangs below one session not seen before. */
  function Below(g: Graph, shut: set<Key>, k: Key, depth: nat, seen: set<Key>): Walk {
    if k in shut then Walk([], seen + {k}) else Visit(g, shut, Kids(g, k), depth + 1, seen + {k})
  }

  lemma VisitOne(g: Graph, shut: set<Key>, k: Key, depth: nat, seen: set<Key>)
    ensures Visit(g, shut, [k], depth, seen) ==
            if k in seen || k !in g.keys then Walk([], seen)
            else Walk([Row(k, depth)] + Below(g, shut, k, depth, seen).rows, Below(g, shut, k, depth, seen).seen)
  {
    assert [k][1..] == [];
  }

  /** A list is walked as its parts are, one after the other. */
  lemma {:induction false} VisitSplits(g: Graph, shut: set<Key>, a: seq<Key>, b: seq<Key>, depth: nat, seen: set<Key>)
    ensures var first := Visit(g, shut, a, depth, seen);
            var second := Visit(g, shut, b, depth, first.seen);
            Visit(g, shut, a + b, depth, seen) == Walk(first.rows + second.rows, second.seen)
    decreases |a|
  {
    if a == [] {
      assert a + b == b;
    } else {
      assert (a + b)[1..] == a[1..] + b;
      var k := a[0];
      if k in seen || k !in g.keys {
        VisitSplits(g, shut, a[1..], b, depth, seen);
      } else {
        var below := Below(g, shut, k, depth, seen);
        VisitSplits(g, shut, a[1..], b, depth, below.seen);
        assert [Row(k, depth)] + below.rows + (Visit(g, shut, a[1..], depth, below.seen).rows
            + Visit(g, shut, b, depth, Visit(g, shut, a[1..], depth, below.seen).seen).rows)
          == ([Row(k, depth)] + below.rows + Visit(g, shut, a[1..], depth, below.seen).rows)
            + Visit(g, shut, b, depth, Visit(g, shut, a[1..], depth, below.seen).seen).rows;
      }
    }
  }

  // ------------------------------------------------------------ each session once

  function KeysOf(rows: seq<Row>): set<Key> {
    set r | r in rows :: r.key
  }

  lemma KeysJoin(a: seq<Row>, b: seq<Row>)
    ensures KeysOf(a + b) == KeysOf(a) + KeysOf(b)
  {}

  ghost predicate Once(rows: seq<Row>) {
    forall i, j :: 0 <= i < j < |rows| ==> rows[i].key != rows[j].key
  }

  lemma OnceJoin(a: seq<Row>, b: seq<Row>)
    requires Once(a) && Once(b) && KeysOf(a) !! KeysOf(b)
    ensures Once(a + b)
  {
    forall i, j | 0 <= i < j < |a + b| ensures (a + b)[i].key != (a + b)[j].key {
      if i < |a| <= j {
        assert a[i] in a && b[j - |a|] in b;
        assert a[i].key in KeysOf(a) && b[j - |a|].key in KeysOf(b);
      }
    }
  }

  /** The walk draws what it newly sees, each session once, and nothing else. */
  lemma {:induction false} VisitOnce(g: Graph, shut: set<Key>, todo: seq<Key>, depth: nat, seen: set<Key>)
    ensures var w := Visit(g, shut, todo, depth, seen);
            Once(w.rows) && KeysOf(w.rows) == w.seen - seen && w.seen - seen <= g.keys
            && (forall k :: k in todo && k in g.keys ==> k in w.seen)
    decreases g.keys - seen, |todo|
  {
    if todo != [] {
      var k, rest := todo[0], todo[1..];
      assert forall x :: x in todo <==> x == k || x in rest;
      if k in seen || k !in g.keys {
        VisitOnce(g, shut, rest, depth, seen);
      } else {
        var below := Below(g, shut, k, depth, seen);
        assert k in g.keys - seen && k !in g.keys - (seen + {k});
        if k !in shut { VisitOnce(g, shut, Kids(g, k), depth + 1, seen + {k}); }
        VisitOnce(g, shut, rest, depth, below.seen);
        OnceHeaded(Row(k, depth), below.rows, Visit(g, shut, rest, depth, below.seen).rows, seen, below.seen);
      }
    }
  }

  lemma OnceHeaded(row: Row, below: seq<Row>, rest: seq<Row>, seen: set<Key>, mid: set<Key>)
    requires Once(below) && Once(rest) && row.key !in seen && row.key in mid && seen <= mid
    requires KeysOf(below) == mid - (seen + {row.key}) && KeysOf(rest) !! mid
    ensures Once([row] + below + rest)
    ensures KeysOf([row] + below + rest) == (mid - seen) + KeysOf(rest)
  {
    assert KeysOf([row]) == {row.key};
    KeysJoin([row], below);
    OnceJoin([row], below);
    KeysJoin([row] + below, rest);
    OnceJoin([row] + below, rest);
  }

  /** Nothing below an open session is left out. */
  lemma {:induction false} VisitCloses(g: Graph, shut: set<Key>, todo: seq<Key>, depth: nat, seen: set<Key>)
    ensures var w := Visit(g, shut, todo, depth, seen);
            forall p, k :: p in w.seen - seen && p !in shut && k in Kids(g, p) && k in g.keys ==> k in w.seen
    decreases g.keys - seen, |todo|
  {
    if todo != [] {
      var k, rest := todo[0], todo[1..];
      if k in seen || k !in g.keys {
        VisitCloses(g, shut, rest, depth, seen);
      } else {
        var below := Below(g, shut, k, depth, seen);
        assert k in g.keys - seen && k !in g.keys - (seen + {k});
        if k !in shut {
          VisitCloses(g, shut, Kids(g, k), depth + 1, seen + {k});
          VisitOnce(g, shut, Kids(g, k), depth + 1, seen + {k});
        }
        VisitCloses(g, shut, rest, depth, below.seen);
      }
    }
  }

  // ------------------------------------------------------------ who is drawn, and where

  /** A way down from a root to `k` through open sessions, a link a step. */
  ghost predicate WayTo(g: Graph, shut: set<Key>, way: seq<Key>, k: Key) {
    && way != [] && way[0] in g.roots && way[|way| - 1] == k
    && forall i :: 0 <= i < |way| - 1 ==> way[i] in g.keys && way[i] !in shut && way[i + 1] in Kids(g, way[i])
  }

  ghost predicate Reaches(g: Graph, shut: set<Key>, k: Key, depth: nat) {
    exists way :: WayTo(g, shut, way, k) && |way| == depth + 1
  }

  lemma WayGoesOn(g: Graph, shut: set<Key>, p: Key, depth: nat, k: Key)
    requires Reaches(g, shut, p, depth) && p in g.keys && p !in shut && k in Kids(g, p)
    ensures Reaches(g, shut, k, depth + 1)
  {
    var way :| WayTo(g, shut, way, p) && |way| == depth + 1;
    assert WayTo(g, shut, way + [k], k);
  }

  /** Every session drawn from the roots stands at the end of an open way down, and
      its depth is the number of sessions above it there. */
  lemma {:induction false} DrawnIsReached(g: Graph, shut: set<Key>, todo: seq<Key>, depth: nat, seen: set<Key>, row: Row)
    requires forall k :: k in todo ==> Reaches(g, shut, k, depth)
    requires row in Visit(g, shut, todo, depth, seen).rows
    ensures Reaches(g, shut, row.key, row.depth) && row.key in g.keys
    decreases g.keys - seen, |todo|
  {
    var k, rest := todo[0], todo[1..];
    assert forall x :: x in rest ==> x in todo;
    if k in seen || k !in g.keys {
      DrawnIsReached(g, shut, rest, depth, seen, row);
    } else {
      var below := Below(g, shut, k, depth, seen);
      assert k in g.keys - seen && k !in g.keys - (seen + {k});
      if row in below.rows {
        forall x | x in Kids(g, k) ensures Reaches(g, shut, x, depth + 1) { WayGoesOn(g, shut, k, depth, x); }
        DrawnIsReached(g, shut, Kids(g, k), depth + 1, seen + {k}, row);
      } else if row in Visit(g, shut, rest, depth, below.seen).rows {
        DrawnIsReached(g, shut, rest, depth, below.seen, row);
      }
    }
  }

  lemma WayPrefix(g: Graph, shut: set<Key>, way: seq<Key>, k: Key)
    requires WayTo(g, shut, way, k) && |way| > 1
    ensures WayTo(g, shut, way[..|way| - 1], way[|way| - 2])
    ensures way[|way| - 2] in g.keys && way[|way| - 2] !in shut && k in Kids(g, way[|way| - 2])
  {
    var up := way[..|way| - 1];
    forall i | 0 <= i < |up| - 1 ensures up[i] in g.keys && up[i] !in shut && up[i + 1] in Kids(g, up[i]) {
      assert way[i + 1] in Kids(g, way[i]);
    }
    assert way[|way| - 2 + 1] in Kids(g, way[|way| - 2]);
  }

  lemma RootsReached(g: Graph, shut: set<Key>)
    ensures forall k :: k in g.roots ==> Reaches(g, shut, k, 0)
  {
    forall k | k in g.roots ensures Reaches(g, shut, k, 0) {
      assert WayTo(g, shut, [k], k);
    }
  }

  lemma {:induction false} ReachedIsSeen(g: Graph, shut: set<Key>, way: seq<Key>, k: Key)
    requires WellFormed(g) && WayTo(g, shut, way, k)
    ensures k in Visit(g, shut, g.roots, 0, {}).seen && k in g.keys
    decreases |way|
  {
    VisitOnce(g, shut, g.roots, 0, {});
    VisitCloses(g, shut, g.roots, 0, {});
    if |way| > 1 {
      var up := way[..|way| - 1];
      WayPrefix(g, shut, way, k);
      ReachedIsSeen(g, shut, up, way[|way| - 2]);
    }
  }

  /** From the roots, a session is drawn if and only if no session above it, on some
      way down from a root, is collapsed. */
  lemma DrawnIffReached(g: Graph, shut: set<Key>, k: Key)
    requires WellFormed(g)
    ensures k in KeysOf(Visit(g, shut, g.roots, 0, {}).rows) <==> exists way :: WayTo(g, shut, way, k)
  {
    var w := Visit(g, shut, g.roots, 0, {});
    VisitOnce(g, shut, g.roots, 0, {});
    RootsReached(g, shut);
    if k in KeysOf(w.rows) {
      var row :| row in w.rows && row.key == k;
      DrawnIsReached(g, shut, g.roots, 0, {}, row);
      var way :| WayTo(g, shut, way, k) && |way| == row.depth + 1;
    }
    if way :| WayTo(g, shut, way, k) {
      ReachedIsSeen(g, shut, way, k);
    }
  }

  /** Some way down from a root leads to `k`. */
  ghost predicate Rooted(g: Graph, k: Key) {
    exists way :: WayTo(g, {}, way, k)
  }

  /** With nothing collapsed and every unrooted session started again at the end,
      every session is drawn exactly once, however its parent links run. */
  lemma EverySessionOnce(g: Graph, loose: seq<Key>)
    requires WellFormed(g)
    requires forall k :: k in g.keys && !Rooted(g, k) ==> k in loose
    ensures var w := Visit(g, {}, g.roots + loose, 0, {}); Once(w.rows) && KeysOf(w.rows) == g.keys
  {
    VisitOnce(g, {}, g.roots + loose, 0, {});
    VisitSplits(g, {}, g.roots, loose, 0, {});
    forall k | k in g.keys ensures k in Visit(g, {}, g.roots + loose, 0, {}).seen {
      if way :| WayTo(g, {}, way, k) {
        ReachedIsSeen(g, {}, way, k);
      }
    }
  }

  // ------------------------------------------------------------ the plain preorder

  function Members(keys: seq<Key>): set<Key> {
    set k | k in keys
  }

  /** Preorder with no memory of what was drawn: a session, at as many steps down as
      it has sessions above it, then its children unless it is collapsed, then the
      rest. */
  function Preorder(g: Graph, shut: set<Key>, todo: seq<Key>, above: seq<Key>): seq<Row>
    decreases g.keys - Members(above), |todo|
  {
    if todo == [] then []
    else
      var k := todo[0];
      if k !in g.keys || k in above then Preorder(g, shut, todo[1..], above)
      else
        assert Members(above + [k]) == Members(above) + {k} && k in g.keys - Members(above);
        [Row(k, |above|)]
        + (if k in shut then [] else Preorder(g, shut, Kids(g, k), above + [k]))
        + Preorder(g, shut, todo[1..], above)
  }

  /** Each session is listed once, under one parent or among the roots. */
  ghost predicate OneParent(g: Graph) {
    && (forall p, q, k :: k in Kids(g, p) && k in Kids(g, q) ==> p == q)
    && (forall p, k :: k in Kids(g, p) ==> k !in g.roots)
    && Distinct(g.roots) && (forall p :: Distinct(Kids(g, p)))
  }

  ghost predicate Distinct(keys: seq<Key>) {
    forall i, j :: 0 <= i < j < |keys| ==> keys[i] != keys[j]
  }

  /** `x` stands below `a`, or is it: a way down to it passes `a` at depth `d`. */
  ghost predicate Under(g: Graph, d: nat, a: Key, x: Key) {
    exists way :: WayTo(g, {}, way, x) && |way| > d && way[d] == a
  }

  lemma {:induction false} OneWay(g: Graph, a: seq<Key>, b: seq<Key>, k: Key)
    requires OneParent(g) && WayTo(g, {}, a, k) && WayTo(g, {}, b, k)
    ensures a == b
    decreases |a|
  {
    if |a| > 1 { WayPrefix(g, {}, a, k); }
    if |b| > 1 { WayPrefix(g, {}, b, k); }
    if |a| > 1 && |b| > 1 {
      OneWay(g, a[..|a| - 1], b[..|b| - 1], a[|a| - 2]);
      assert a == a[..|a| - 1] + [k] && b == b[..|b| - 1] + [k];
    }
  }

  lemma UnderOne(g: Graph, d: nat, a: Key, b: Key, x: Key)
    requires OneParent(g) && Under(g, d, a, x) && Under(g, d, b, x)
    ensures a == b
  {
    var v :| WayTo(g, {}, v, x) && |v| > d && v[d] == a;
    var w :| WayTo(g, {}, w, x) && |w| > d && w[d] == b;
    OneWay(g, v, w, x);
  }

  lemma UnderParent(g: Graph, d: nat, p: Key, k: Key, x: Key)
    requires OneParent(g) && k in Kids(g, p) && Under(g, d + 1, k, x)
    ensures Under(g, d, p, x)
  {
    var way :| WayTo(g, {}, way, x) && |way| > d + 1 && way[d + 1] == k;
    assert way[d + 1] in Kids(g, way[d]);
    assert way[d] == p;
  }

  lemma UnderKid(g: Graph, d: nat, a: Key, p: Key, k: Key)
    requires Under(g, d, a, p) && p in g.keys && k in Kids(g, p)
    ensures Under(g, d, a, k)
  {
    var way :| WayTo(g, {}, way, p) && |way| > d && way[d] == a;
    var on := way + [k];
    assert WayTo(g, {}, on, k) && on[d] == a;
  }

  /** All a walk newly sees stands below what it was started from. */
  lemma {:induction false} SeenIsUnder(g: Graph, shut: set<Key>, todo: seq<Key>, depth: nat, seen: set<Key>, d: nat, a: Key, x: Key)
    requires forall k :: k in todo ==> Under(g, d, a, k)
    requires x in Visit(g, shut, todo, depth, seen).seen - seen
    ensures Under(g, d, a, x)
    decreases g.keys - seen, |todo|
  {
    var k, rest := todo[0], todo[1..];
    assert forall y :: y in rest ==> y in todo;
    if k in seen || k !in g.keys {
      SeenIsUnder(g, shut, rest, depth, seen, d, a, x);
    } else {
      var below := Below(g, shut, k, depth, seen);
      assert k in g.keys - seen && k !in g.keys - (seen + {k});
      if x !in below.seen {
        SeenIsUnder(g, shut, rest, depth, below.seen, d, a, x);
      } else if x != k {
        forall y | y in Kids(g, k) ensures Under(g, d, a, y) { UnderKid(g, d, a, k, y); }
        SeenIsUnder(g, shut, Kids(g, k), depth + 1, seen + {k}, d, a, x);
      }
    }
  }

  /** `above` is the way down to every session in `todo`. */
  ghost predicate Stands(g: Graph, todo: seq<Key>, above: seq<Key>) {
    forall k :: k in todo ==> WayTo(g, {}, above + [k], k)
  }

  ghost predicate Unseen(g: Graph, todo: seq<Key>, d: nat, seen: set<Key>) {
    forall k, x :: k in todo && x in seen ==> !Under(g, d, k, x)
  }

  lemma UnderSelf(g: Graph, above: seq<Key>, k: Key)
    requires WayTo(g, {}, above + [k], k)
    ensures Under(g, |above|, k, k)
  {
    assert (above + [k])[|above|] == k;
  }

  lemma WayCut(g: Graph, way: seq<Key>, k: Key, i: nat)
    requires WayTo(g, {}, way, k) && i < |way|
    ensures WayTo(g, {}, way[..i + 1], way[i])
  {
    var cut := way[..i + 1];
    forall j | 0 <= j < |cut| - 1 ensures cut[j] in g.keys && cut[j + 1] in Kids(g, cut[j]) {
      assert way[j + 1] in Kids(g, way[j]);
    }
  }

  /** No session stands above itself. */
  lemma NotAbove(g: Graph, above: seq<Key>, k: Key)
    requires OneParent(g) && WayTo(g, {}, above + [k], k)
    ensures k !in above
  {
    if k in above {
      var i :| 0 <= i < |above| && above[i] == k;
      var way := above + [k];
      WayCut(g, way, k, i);
      OneWay(g, way[..i + 1], way, k);
    }
  }

  lemma StandsBelow(g: Graph, above: seq<Key>, k: Key)
    requires WayTo(g, {}, above + [k], k) && k in g.keys
    ensures Stands(g, Kids(g, k), above + [k])
  {
    var way := above + [k];
    forall y | y in Kids(g, k) ensures WayTo(g, {}, way + [y], y) {
      var on := way + [y];
      forall i | 0 <= i < |on| - 1 ensures on[i] in g.keys && on[i + 1] in Kids(g, on[i]) {
        if i < |way| - 1 { assert way[i + 1] in Kids(g, way[i]); }
      }
    }
  }

  lemma UnseenBelow(g: Graph, above: seq<Key>, k: Key, seen: set<Key>)
    requires OneParent(g) && WayTo(g, {}, above + [k], k)
    requires Unseen(g, [k], |above|, seen)
    ensures Unseen(g, Kids(g, k), |above| + 1, seen + {k})
  {
    forall y, x | y in Kids(g, k) && x in seen + {k} && Under(g, |above| + 1, y, x) ensures false {
      if x in seen {
        UnderParent(g, |above|, k, y, x);
      } else {
        var way :| WayTo(g, {}, way, x) && |way| > |above| + 1 && way[|above| + 1] == y;
        OneWay(g, way, above + [k], k);
      }
    }
  }

  /** What was seen below `k` stands below none of its siblings. */
  lemma UnseenBeside(g: Graph, shut: set<Key>, above: seq<Key>, k: Key, rest: seq<Key>, seen: set<Key>)
    requires OneParent(g) && WayTo(g, {}, above + [k], k) && k in g.keys && k !in rest
    requires Unseen(g, rest, |above|, seen)
    ensures Unseen(g, rest, |above|, Below(g, shut, k, |above|, seen).seen)
  {
    hide Visit;
    UnderSelf(g, above, k);
    forall y | y in Kids(g, k) ensures Under(g, |above|, k, y) { UnderKid(g, |above|, k, k, y); }
    forall r, x | r in rest && x in Below(g, shut, k, |above|, seen).seen && Under(g, |above|, r, x) ensures false {
      if x !in seen {
        if x != k { SeenIsUnder(g, shut, Kids(g, k), |above| + 1, seen + {k}, |above|, k, x); }
        UnderOne(g, |above|, r, k, x);
      }
    }
  }

  lemma {:induction false} VisitIsPreorderFrom(g: Graph, shut: set<Key>, todo: seq<Key>, above: seq<Key>, seen: set<Key>)
    requires WellFormed(g) && OneParent(g) && Distinct(todo)
    requires forall k :: k in todo ==> k in g.keys
    requires Stands(g, todo, above) && Unseen(g, todo, |above|, seen)
    ensures Visit(g, shut, todo, |above|, seen).rows == Preorder(g, shut, todo, above)
    decreases g.keys - seen, |todo|
  {
    hide Under, OneParent, WayTo, Distinct, WellFormed;
    if todo != [] {
      var k, rest := todo[0], todo[1..];
      assert forall y :: y in rest ==> y in todo;
      UnderSelf(g, above, k);
      NotAbove(g, above, k);
      DistinctRest(todo);
      DistinctKids(g, k);
      StandsBelow(g, above, k);
      UnseenBelow(g, above, k, seen);
      UnseenBeside(g, shut, above, k, rest, seen);
      assert k in g.keys - seen && k !in g.keys - (seen + {k});
      if k !in shut { VisitIsPreorderFrom(g, shut, Kids(g, k), above + [k], seen + {k}); }
      VisitIsPreorderFrom(g, shut, rest, above, Below(g, shut, k, |above|, seen).seen);
    }
  }

  lemma DistinctRest(todo: seq<Key>)
    requires todo != [] && Distinct(todo)
    ensures Distinct(todo[1..]) && todo[0] !in todo[1..]
  {}

  lemma DistinctKids(g: Graph, k: Key)
    requires OneParent(g) && WellFormed(g) && k in g.keys
    ensures Distinct(Kids(g, k)) && forall y :: y in Kids(g, k) ==> y in g.keys
  {}

  /** The sessions under the roots come out as the plain preorder of the forest, cut
      below collapsed sessions, each as deep as it has sessions above it. */
  lemma VisitIsPreorder(g: Graph, shut: set<Key>)
    requires WellFormed(g) && OneParent(g)
    ensures Visit(g, shut, g.roots, 0, {}).rows == Preorder(g, shut, g.roots, [])
  {
    assert Stands(g, g.roots, []);
    VisitIsPreorderFrom(g, shut, g.roots, [], {});
  }
}
