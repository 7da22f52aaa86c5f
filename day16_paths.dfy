/** Day 16: the shortest walks between valves (`build_paths`, one
    breadth-first search from every valve) and the numbering of the valves
    that backs the bit mask of opened valves. */
module Day16Paths {
  import opened Common
  import opened Day16

  type Valves = map<string, Valve>

  /** A tunnel leads from `a`, a known valve, to `b`. */
  predicate Edge(valves: Valves, a: string, b: string)
  {
    a in valves && b in valves[a].neighbors
  }

  function Last(p: seq<string>): string
    requires |p| >= 1
  {
    p[|p| - 1]
  }

  /** `p` is a walk through tunnels that starts at `src`: every valve on it
      but the last is known, and a tunnel leads from each to the next. */
  predicate IsPath(valves: Valves, src: string, p: seq<string>)
    decreases |p|
  {
    |p| >= 1 &&
    if |p| == 1 then p[0] == src
    else IsPath(valves, src, p[..|p| - 1]) && Edge(valves, p[|p| - 2], p[|p| - 1])
  }

  lemma {:induction false} PathStart(valves: Valves, src: string, p: seq<string>)
    requires IsPath(valves, src, p)
    ensures p[0] == src
    decreases |p|
  {
    if |p| > 1 {
      PathStart(valves, src, p[..|p| - 1]);
    }
  }

  lemma {:induction false} PathEdge(valves: Valves, src: string, p: seq<string>, j: nat)
    requires IsPath(valves, src, p) && 1 <= j < |p|
    ensures Edge(valves, p[j - 1], p[j])
    decreases |p|
  {
    if j < |p| - 1 {
      var q := p[..|p| - 1];
      PathEdge(valves, src, q, j);
      assert q[j - 1] == p[j - 1] && q[j] == p[j];
    }
  }

  /** `p` is a walk from `src` that ends at `v`. */
  predicate Walk(valves: Valves, src: string, p: seq<string>, v: string)
  {
    IsPath(valves, src, p) && Last(p) == v
  }

  /** `p` is a walk from `src` that ends at a name that is not a valve. */
  predicate Escape(valves: Valves, src: string, p: seq<string>)
  {
    IsPath(valves, src, p) && Last(p) !in valves
  }

  /** Some walk from `src` ends at `t`. */
  ghost predicate Reaches(valves: Valves, src: string, t: string)
  {
    exists p :: Walk(valves, src, p, t)
  }

  /** Some walk from `src` leads into a name that is not a valve: the
      search from `src` panics at `valves.get(neighbor).unwrap()`. */
  ghost predicate Leaks(valves: Valves, src: string)
  {
    exists p :: Escape(valves, src, p)
  }

  /** No walk from `src` to `v` has fewer than `n` valves on it. */
  ghost predicate Nearest(valves: Valves, src: string, v: string, n: nat)
  {
    forall p :: Walk(valves, src, p, v) ==> n <= |p|
  }

  /** `m` holds the valves with a positive flow rate that can be reached
      from `src`, each with the number of tunnels on a shortest walk to it. */
  ghost predicate Distances(valves: Valves, src: string, m: map<string, nat>)
  {
    (forall t :: t in m <==> t in valves && valves[t].flow > 0 && Reaches(valves, src, t)) &&
    (forall t :: t in m ==> exists p :: Walk(valves, src, p, t) && |p| == m[t] + 1) &&
    (forall t :: t in m ==> Nearest(valves, src, t, m[t] + 1))
  }

  lemma {:induction false} PathPrefix(valves: Valves, src: string, p: seq<string>, k: nat)
    requires IsPath(valves, src, p) && 1 <= k <= |p|
    ensures IsPath(valves, src, p[..k]) && Last(p[..k]) == p[k - 1]
    decreases |p|
  {
    if k < |p| {
      var q := p[..|p| - 1];
      PathPrefix(valves, src, q, k);
      assert q[..k] == p[..k];
    } else {
      assert p[..k] == p;
    }
  }

  lemma PathSnoc(valves: Valves, src: string, p: seq<string>, w: string)
    requires IsPath(valves, src, p) && Edge(valves, Last(p), w)
    ensures IsPath(valves, src, p + [w]) && Last(p + [w]) == w
  {
    assert (p + [w])[..|p|] == p;
  }

  /** A walk that starts inside a set and ends outside it crosses its
      border somewhere. */
  lemma {:induction false} Crossing(p: seq<string>, inside: set<string>) returns (j: nat)
    requires |p| >= 1 && p[0] in inside && Last(p) !in inside
    ensures 1 <= j < |p| && p[j - 1] in inside && p[j] !in inside
    decreases |p|
  {
    if p[|p| - 2] in inside {
      j := |p| - 1;
    } else {
      var q := p[..|p| - 1];
      j := Crossing(q, inside);
      assert p[j - 1] == q[j - 1] && p[j] == q[j];
    }
  }

  /** Every tunnel out of `u`, a valve, leads into `seen`. */
  ghost predicate Covered(valves: Valves, u: string, seen: set<string>)
  {
    u in valves && forall x :: x in valves[u].neighbors ==> x in seen
  }

  /** Every tunnel out of a valve of `done` leads into `seen`. */
  ghost predicate Closed(valves: Valves, done: set<string>, seen: set<string>)
  {
    forall u :: u in done ==> Covered(valves, u, seen)
  }

  /** A set that holds `src` and every tunnel out of its members holds
      every walk from `src`. */
  lemma Enclosed(valves: Valves, src: string, p: seq<string>, seen: set<string>)
    requires src in seen && Closed(valves, seen, seen) && IsPath(valves, src, p)
    ensures Last(p) in seen
  {
    if Last(p) !in seen {
      PathStart(valves, src, p);
      var j := Crossing(p, seen);
      PathEdge(valves, src, p, j);
    }
  }

  /** `w` holds, for each seen valve, a walk from `src` that ends there. */
  ghost predicate Witnessed(valves: Valves, src: string, seen: set<string>, w: map<string, seq<string>>)
  {
    w.Keys == seen && forall v :: v in w ==> Walk(valves, src, w[v], v)
  }

  /** No walk to a seen valve is shorter than its witness. */
  ghost predicate Shortest(valves: Valves, src: string, w: map<string, seq<string>>)
  {
    forall v :: v in w ==> Nearest(valves, src, v, |w[v]|)
  }

  /** The names in the queue. */
  function Names(queue: seq<(string, int)>): set<string>
    decreases |queue|
  {
    if queue == [] then {} else Names(queue[..|queue| - 1]) + {queue[|queue| - 1].0}
  }

  lemma {:induction false} NamesHas(queue: seq<(string, int)>, i: nat)
    requires i < |queue|
    ensures queue[i].0 in Names(queue)
    decreases |queue|
  {
    if i < |queue| - 1 {
      var init := queue[..|queue| - 1];
      NamesHas(init, i);
      assert init[i] == queue[i];
    }
  }

  lemma {:induction false} NamesWitness(queue: seq<(string, int)>, v: string) returns (i: nat)
    requires v in Names(queue)
    ensures i < |queue| && queue[i].0 == v
    decreases |queue|
  {
    var init := queue[..|queue| - 1];
    if v == queue[|queue| - 1].0 {
      i := |queue| - 1;
    } else {
      i := NamesWitness(init, v);
      assert init[i] == queue[i];
    }
  }

  lemma NamesSnoc(queue: seq<(string, int)>, x: (string, int))
    ensures Names(queue + [x]) == Names(queue) + {x.0}
  {
    assert (queue + [x])[..|queue|] == queue;
  }

  lemma {:induction false} NamesTail(queue: seq<(string, int)>)
    requires |queue| >= 1
    ensures Names(queue) == Names(queue[1..]) + {queue[0].0}
    decreases |queue|
  {
    if |queue| > 1 {
      var init := queue[..|queue| - 1];
      NamesTail(init);
      assert init[1..] == queue[1..][..|queue| - 2];
      assert init[0] == queue[0];
      assert queue[1..][|queue| - 2] == queue[|queue| - 1];
    } else {
      assert queue[..0] == [];
      assert queue[1..] == [];
    }
  }

  /** Each queued valve is seen, not yet expanded, and queued with the
      number of tunnels on its witness walk. */
  ghost predicate Entries(queue: seq<(string, int)>, w: map<string, seq<string>>, done: set<string>)
  {
    forall i :: 0 <= i < |queue| ==> queue[i].0 in w && queue[i].0 !in done && queue[i].1 + 1 == |w[queue[i].0]|
  }

  /** The queue holds distinct valves in order of distance. */
  predicate Ordered(queue: seq<(string, int)>)
  {
    forall i, j :: 0 <= i < j < |queue| ==> queue[i].1 <= queue[j].1 && queue[i].0 != queue[j].0
  }

  /** Every queued valve is `d` or `d + 1` tunnels away. */
  predicate Band(queue: seq<(string, int)>, d: int)
  {
    forall i :: 0 <= i < |queue| ==> d <= queue[i].1 <= d + 1
  }

  /** A valve reached for the first time from a frontier no closer than
      `d` tunnels is at least `d + 1` tunnels away: a walk to it leaves the
      seen valves through one that is not yet expanded. */
  lemma Frontier(valves: Valves, src: string, w: map<string, seq<string>>, done: set<string>,
                 seen: set<string>, d: nat, p: seq<string>, x: string)
    requires Witnessed(valves, src, seen, w) && Shortest(valves, src, w) && Closed(valves, done, seen)
    requires src in seen && x !in seen && Walk(valves, src, p, x)
    requires forall v :: v in seen && v !in done ==> |w[v]| >= d + 1
    ensures d + 2 <= |p|
  {
    PathStart(valves, src, p);
    var j := Crossing(p, seen);
    PathEdge(valves, src, p, j);
    assert p[j - 1] !in done;
    PathPrefix(valves, src, p, j);
  }

  /** What the search knows of the walks from `src`: every seen valve is
      a valve with a shortest walk to it, and the expanded ones have all
      their neighbours seen. */
  ghost predicate Explored(valves: Valves, src: string, seen: set<string>, w: map<string, seq<string>>,
                           done: set<string>)
  {
    src in seen && seen <= valves.Keys && done <= seen &&
    Witnessed(valves, src, seen, w) && Shortest(valves, src, w) && Closed(valves, done, seen)
  }

  /** The seen valves that are not expanded are queued, in order and at
      most one tunnel apart from front to back. */
  ghost predicate Pending(queue: seq<(string, int)>, seen: set<string>, w: map<string, seq<string>>,
                          done: set<string>)
  {
    Entries(queue, w, done) && Ordered(queue) && (queue != [] ==> Band(queue, queue[0].1)) &&
    seen == done + Names(queue)
  }

  /** The names as queue entries, all at distance `e`. */
  function Queue(names: seq<string>, e: int): (q: seq<(string, int)>)
    ensures |q| == |names| && forall i :: 0 <= i < |q| ==> q[i] == (names[i], e)
  {
    seq(|names|, i requires 0 <= i < |names| => (names[i], e))
  }

  function Elems(names: seq<string>): set<string>
  {
    set x | x in names
  }

  /** `added` lists distinct valves, neighbours of `u`, none of them seen
      before. */
  predicate Fresh(valves: Valves, u: string, seen: set<string>, added: seq<string>)
  {
    u in valves &&
    (forall i :: 0 <= i < |added| ==> added[i] in valves[u].neighbors && added[i] in valves && added[i] !in seen) &&
    (forall i, j :: 0 <= i < j < |added| ==> added[i] != added[j])
  }

  /** The `for neighbor in &current_node.neighbors` loop: every neighbour
      not yet seen is marked seen and queued one tunnel further than `u`.
      `ok` is false when such a neighbour is not a valve (a panic), and
      `bad` is that neighbour. */
  method Expand(valves: Valves, u: string, d: int, queue: seq<(string, int)>, seen: set<string>)
    returns (ok: bool, queue': seq<(string, int)>, seen': set<string>, ghost added: seq<string>, ghost bad: string)
    requires u in valves
    ensures queue' == queue + Queue(added, d + 1) && seen' == seen + Elems(added)
    ensures Fresh(valves, u, seen, added)
    ensures ok ==> Covered(valves, u, seen')
    ensures !ok ==> bad in valves[u].neighbors && bad !in valves
  {
    var ns := valves[u].neighbors;
    queue', seen', added, bad := queue, seen, [], u;
    for k := 0 to |ns|
      invariant queue' == queue + Queue(added, d + 1) && seen' == seen + Elems(added)
      invariant Fresh(valves, u, seen, added)
      invariant forall j :: 0 <= j < k ==> ns[j] in seen'
    {
      var x := ns[k];
      if x in seen' {
        continue;
      }
      if x !in valves {
        return false, queue', seen', added, x;
      }
      assert Queue(added + [x], d + 1) == Queue(added, d + 1) + [(x, d + 1)];
      assert Elems(added + [x]) == Elems(added) + {x};
      queue', seen', added := queue' + [(x, d + 1)], seen' + {x}, added + [x];
    }
    ok := true;
  }

  /** The witness walks once `u`'s new neighbours are reached through it. */
  ghost function Reached(w: map<string, seq<string>>, u: string, added: seq<string>): map<string, seq<string>>
    requires u in w
  {
    map v | v in w.Keys + Elems(added) :: if v in w then w[v] else w[u] + [v]
  }

  lemma {:induction false} NamesAppend(queue: seq<(string, int)>, added: seq<string>, e: int)
    ensures Names(queue + Queue(added, e)) == Names(queue) + Elems(added)
    decreases |added|
  {
    if added != [] {
      var init := added[..|added| - 1];
      var x := added[|added| - 1];
      NamesAppend(queue, init, e);
      assert queue + Queue(added, e) == (queue + Queue(init, e)) + [(x, e)];
      NamesSnoc(queue + Queue(init, e), (x, e));
      assert added == init + [x];
      assert Elems(added) == Elems(init) + {x};
    } else {
      assert queue + Queue(added, e) == queue;
    }
  }

  lemma {:induction false} NotNamed(queue: seq<(string, int)>, x: string)
    requires forall i :: 0 <= i < |queue| ==> queue[i].0 != x
    ensures x !in Names(queue)
    decreases |queue|
  {
    if queue != [] {
      NotNamed(queue[..|queue| - 1], x);
    }
  }

  /** Every valve seen but not expanded is at least as far as the front of
      the queue. */
  lemma FrontierBound(queue: seq<(string, int)>, seen: set<string>, w: map<string, seq<string>>,
                      done: set<string>)
    requires Pending(queue, seen, w, done) && queue != []
    ensures forall v :: v in seen && v !in done ==> v in w && |w[v]| >= queue[0].1 + 1
  {
    forall v | v in seen && v !in done
      ensures v in w && |w[v]| >= queue[0].1 + 1
    {
      var i := NamesWitness(queue, v);
    }
  }

  /** The walks to the new neighbours are walks, and no walk to them is
      shorter. */
  lemma ReachedWalks(valves: Valves, src: string, seen: set<string>, w: map<string, seq<string>>,
                     done: set<string>, u: string, d: nat, added: seq<string>)
    requires src in seen && Witnessed(valves, src, seen, w) && Shortest(valves, src, w) && Closed(valves, done, seen)
    requires Fresh(valves, u, seen, added) && u in seen && |w[u]| == d + 1
    requires forall v :: v in seen && v !in done ==> |w[v]| >= d + 1
    ensures Witnessed(valves, src, seen + Elems(added), Reached(w, u, added))
    ensures Shortest(valves, src, Reached(w, u, added))
  {
    var w' := Reached(w, u, added);
    forall v | v in w'
      ensures Walk(valves, src, w'[v], v) && Nearest(valves, src, v, |w'[v]|)
    {
      if v !in w {
        var i :| 0 <= i < |added| && added[i] == v;
        PathSnoc(valves, src, w[u], v);
        forall p | Walk(valves, src, p, v)
          ensures |w'[v]| <= |p|
        {
          Frontier(valves, src, w, done, seen, d, p, v);
        }
      }
    }
  }

  /** The queue after popping its front and queuing the new neighbours
      holds valves not yet expanded, each with the length of its walk. */
  lemma ReachedEntries(queue: seq<(string, int)>, seen: set<string>, w: map<string, seq<string>>,
                       done: set<string>, added: seq<string>, valves: Valves)
    requires queue != [] && Entries(queue, w, done) && Ordered(queue) && Band(queue, queue[0].1)
    requires w.Keys == seen && done <= seen
    requires Fresh(valves, queue[0].0, seen, added)
    ensures Entries(queue[1..] + Queue(added, queue[0].1 + 1), Reached(w, queue[0].0, added), done + {queue[0].0})
    ensures Band(queue[1..] + Queue(added, queue[0].1 + 1), queue[0].1)
  {
    var u, d := queue[0].0, queue[0].1;
    var rest := queue[1..];
    var q := rest + Queue(added, d + 1);
    var w' := Reached(w, u, added);
    assert u in w && |w[u]| == d + 1;
    forall i | 0 <= i < |q|
      ensures q[i].0 in w' && q[i].0 !in done + {u} && q[i].1 + 1 == |w'[q[i].0]| && d <= q[i].1 <= d + 1
    {
      if i < |rest| {
        var v := queue[i + 1].0;
        assert q[i] == queue[i + 1];
        assert v in w && v !in done && queue[i + 1].1 + 1 == |w[v]|;
        assert v != u;
        assert w'[v] == w[v];
      } else {
        var v := added[i - |rest|];
        assert q[i] == (v, d + 1);
        assert v !in seen && v in Elems(added);
        assert w'[v] == w[u] + [v];
      }
    }
  }

  /** The queue after popping its front and queuing the new neighbours
      still holds distinct valves in order of distance. */
  lemma ReachedOrder(queue: seq<(string, int)>, seen: set<string>, w: map<string, seq<string>>,
                     done: set<string>, added: seq<string>, valves: Valves)
    requires queue != [] && Entries(queue, w, done) && Ordered(queue) && Band(queue, queue[0].1)
    requires w.Keys == seen
    requires Fresh(valves, queue[0].0, seen, added)
    ensures Ordered(queue[1..] + Queue(added, queue[0].1 + 1))
  {
    var d := queue[0].1;
    var rest := queue[1..];
    var q := rest + Queue(added, d + 1);
    forall i, j | 0 <= i < j < |q|
      ensures q[i].1 <= q[j].1 && q[i].0 != q[j].0
    {
      if j < |rest| {
        assert q[i] == queue[i + 1] && q[j] == queue[j + 1];
      } else if i < |rest| {
        assert q[i] == queue[i + 1] && q[i].0 in w;
        assert q[j] == (added[j - |rest|], d + 1);
      } else {
        assert q[i] == (added[i - |rest|], d + 1) && q[j] == (added[j - |rest|], d + 1);
      }
    }
  }

  /** A queue in order whose distances lie in a band of width one lies in
      the band that starts at its front. */
  lemma BandFront(queue: seq<(string, int)>, d: int)
    requires queue != [] && Band(queue, d) && Ordered(queue)
    ensures Band(queue, queue[0].1)
  {
  }

  /** Expanding `u`, the nearest valve not yet expanded, with its new
      neighbours reached through it, keeps what the search knows of the
      walks. */
  lemma AdvanceWalks(valves: Valves, src: string, seen: set<string>, w: map<string, seq<string>>,
                     done: set<string>, u: string, d: nat, added: seq<string>, seen': set<string>)
    requires Explored(valves, src, seen, w, done) && u in seen && u !in done && |w[u]| == d + 1
    requires forall v :: v in seen && v !in done ==> v in w && |w[v]| >= d + 1
    requires seen' == seen + Elems(added) && Fresh(valves, u, seen, added) && Covered(valves, u, seen')
    ensures Explored(valves, src, seen', Reached(w, u, added), done + {u})
  {
    ReachedWalks(valves, src, seen, w, done, u, d, added);
  }

  /** Popping `u` from the front of the queue and queuing its new
      neighbours, marked seen, keeps the queue in order with `u`
      expanded. */
  lemma AdvanceQueue(queue: seq<(string, int)>, seen: set<string>, w: map<string, seq<string>>,
                     done: set<string>, added: seq<string>, valves: Valves,
                     u: string, d: int, queue': seq<(string, int)>, seen': set<string>)
    requires Pending(queue, seen, w, done) && queue != [] && w.Keys == seen && done <= seen
    requires u == queue[0].0 && d == queue[0].1 && Fresh(valves, u, seen, added)
    requires queue' == queue[1..] + Queue(added, d + 1) && seen' == seen + Elems(added)
    ensures Pending(queue', seen', Reached(w, u, added), done + {u})
  {
    var rest := queue[1..];
    ReachedEntries(queue, seen, w, done, added, valves);
    ReachedOrder(queue, seen, w, done, added, valves);
    if rest + Queue(added, d + 1) != [] {
      BandFront(rest + Queue(added, d + 1), d);
    }
    ReachedNames(queue, seen, done, added, d + 1);
  }

  /** Popping the front of the queue and queuing new valves marks the
      popped one expanded and the new ones seen. */
  lemma ReachedNames(queue: seq<(string, int)>, seen: set<string>, done: set<string>, added: seq<string>, e: int)
    requires queue != [] && Ordered(queue) && seen == done + Names(queue) && queue[0].0 !in done
    ensures seen + Elems(added) == done + {queue[0].0} + Names(queue[1..] + Queue(added, e))
  {
    var u, rest := queue[0].0, queue[1..];
    NamesTail(queue);
    forall i | 0 <= i < |rest|
      ensures rest[i].0 != u
    {
      assert rest[i] == queue[i + 1];
    }
    NotNamed(rest, u);
    NamesAppend(rest, added, e);
  }

  /** A neighbour of a reached valve that is not a valve ends a walk. */
  lemma LeakAt(valves: Valves, src: string, p: seq<string>, x: string)
    requires IsPath(valves, src, p) && Edge(valves, Last(p), x) && x !in valves
    ensures Leaks(valves, src)
  {
    PathSnoc(valves, src, p, x);
    assert Escape(valves, src, p + [x]);
  }

  /** One breadth-first search of `build_paths`, from `src`: the reachable
      valves with a positive flow rate, each with its distance, or `None`
      when a tunnel leads to a name that is not a valve (a panic). The
      valves are filed under their own names, so the search records the
      name it pops. */
  method Search(valves: Valves, src: string) returns (r: Option<map<string, nat>>)
    requires src in valves
    ensures r.None? <==> Leaks(valves, src)
    ensures r.Some? ==> Distances(valves, src, r.value)
  {
    var queue: seq<(string, int)> := [(src, 0)];
    var seen := {src};
    var found: map<string, nat> := map[];
    ghost var w: map<string, seq<string>> := map[src := [src]];
    ghost var done: set<string> := {};
    Start(valves, src);
    while queue != []
      invariant Explored(valves, src, seen, w, done) && Pending(queue, seen, w, done)
      invariant forall i :: 0 <= i < |queue| ==> queue[i].1 >= 0
      invariant Recorded(valves, found, done, w)
      decreases |valves.Keys - done|
    {
      var u, d := queue[0].0, queue[0].1;
      NamesHas(queue, 0);
      ghost var found0 := found;
      if valves[u].flow > 0 {
        found := found[u := d];
      }
      var ok, queue', seen', added, bad := Expand(valves, u, d, queue[1..], seen);
      if !ok {
        LeakAt(valves, src, w[u], bad);
        return None;
      }
      FrontierBound(queue, seen, w, done);
      AdvanceWalks(valves, src, seen, w, done, u, d, added, seen');
      AdvanceQueue(queue, seen, w, done, added, valves, u, d, queue', seen');
      Note(valves, found0, done, w, u, d, added, found);
      Shrink(valves.Keys, done, u);
      queue, seen, w, done := queue', seen', Reached(w, u, added), done + {u};
    }
    Complete(valves, src, seen, w, found);
    return Some(found);
  }

  /** `found` holds the expanded valves with a positive flow rate, each
      with the number of tunnels on its witness walk. */
  ghost predicate Recorded(valves: Valves, found: map<string, nat>, done: set<string>, w: map<string, seq<string>>)
  {
    (forall t :: t in found <==> t in done && t in valves && valves[t].flow > 0) &&
    (forall t :: t in found ==> t in w && found[t] + 1 == |w[t]|)
  }

  /** Recording the popped valve when its flow rate is positive. */
  lemma Note(valves: Valves, found0: map<string, nat>, done: set<string>, w: map<string, seq<string>>,
             u: string, d: nat, added: seq<string>, found: map<string, nat>)
    requires Recorded(valves, found0, done, w) && u in valves && u in w && |w[u]| == d + 1
    requires found == if valves[u].flow > 0 then found0[u := d] else found0
    ensures Recorded(valves, found, done + {u}, Reached(w, u, added))
  {
  }

  /** Expanding one more valve leaves fewer to expand. */
  lemma Shrink(keys: set<string>, done: set<string>, u: string)
    requires u in keys && u !in done
    ensures |keys - (done + {u})| < |keys - done|
  {
    assert keys - done == (keys - (done + {u})) + {u};
  }

  /** The search starts with `src` seen and queued at distance 0. */
  lemma Start(valves: Valves, src: string)
    requires src in valves
    ensures Explored(valves, src, {src}, map[src := [src]], {}) && Pending([(src, 0)], {src}, map[src := [src]], {})
  {
    assert Names([(src, 0)]) == {src} by {
      assert [(src, 0)][..0] == [];
    }
    forall p | Walk(valves, src, p, src)
      ensures 1 <= |p|
    {
    }
  }

  /** When the queue runs dry every reachable valve has been seen, so the
      recorded distances are those of every reachable valve with a positive
      flow rate, and no walk leaves the valves. */
  lemma Complete(valves: Valves, src: string, seen: set<string>, w: map<string, seq<string>>,
                 found: map<string, nat>)
    requires Explored(valves, src, seen, w, seen)
    requires Recorded(valves, found, seen, w)
    ensures !Leaks(valves, src) && Distances(valves, src, found)
  {
    forall p | IsPath(valves, src, p)
      ensures Last(p) in seen
    {
      Enclosed(valves, src, p, seen);
    }
    forall t | t in valves && valves[t].flow > 0 && Reaches(valves, src, t)
      ensures t in found
    {
      var p :| Walk(valves, src, p, t);
    }
    forall t | t in found
      ensures exists p :: Walk(valves, src, p, t) && |p| == found[t] + 1
    {
      assert Walk(valves, src, w[t], t);
    }
  }

  /** The entry of `build_paths` for a valve: empty when it has none. */
  function Get(paths: map<string, map<string, nat>>, n: string): map<string, nat>
  {
    if n in paths then paths[n] else map[]
  }

  /** `build_paths`: a search from every valve, each keeping the valves
      it found under the name of the valve it started from; a valve from
      which nothing was found gets no entry. `None` when any search
      panics, which does not depend on the order of the valves. */
  method BuildPaths(valves: Valves) returns (r: Option<map<string, map<string, nat>>>)
    requires Named(valves)
    ensures r.None? <==> exists n :: n in valves && Leaks(valves, n)
    ensures r.Some? ==> r.value.Keys <= valves.Keys
    ensures r.Some? ==> forall n :: n in valves ==> Distances(valves, n, Get(r.value, n))
    ensures r.Some? ==> forall n :: n in r.value ==> r.value[n] != map[]
  {
    var paths: map<string, map<string, nat>> := map[];
    var todo := valves.Keys;
    ghost var good := Searched(valves);
    while todo != {}
      invariant Built(paths, todo, valves.Keys, good)
      decreases |todo|
    {
      var k :| k in todo;
      var node := valves[k];
      var found := Search(valves, node.name);
      if found.None? {
        return None;
      }
      ghost var paths0 := paths;
      if found.value != map[] {
        paths := paths[node.name := found.value];
      }
      assert good(k, found.value);
      Record(paths0, todo, valves.Keys, good, k, found.value, paths);
      todo := todo - {k};
    }
    forall n | n in valves
      ensures Distances(valves, n, Get(paths, n)) && !Leaks(valves, n)
    {
      assert good(n, Get(paths, n));
    }
    return Some(paths);
  }

  /** What a search from `n` that does not panic finds. */
  ghost function Searched(valves: Valves): (string, map<string, nat>) -> bool
  {
    (n, m) => Distances(valves, n, m) && !Leaks(valves, n)
  }

  /** The searches from the valves of `keys` outside `todo` are done, each
      meeting `good` and keeping what it found, if anything, under its
      valve. */
  ghost predicate Built(paths: map<string, map<string, nat>>, todo: set<string>, keys: set<string>,
                        good: (string, map<string, nat>) -> bool)
  {
    todo <= keys && paths.Keys <= keys - todo &&
    (forall n :: n in keys && n !in todo ==> good(n, Get(paths, n))) &&
    (forall n :: n in paths ==> paths[n] != map[])
  }

  /** Keeping the result of one more search keeps the record. */
  lemma Record(paths0: map<string, map<string, nat>>, todo: set<string>, keys: set<string>,
               good: (string, map<string, nat>) -> bool, k: string,
               found: map<string, nat>, paths: map<string, map<string, nat>>)
    requires Built(paths0, todo, keys, good) && k in todo && good(k, found)
    requires paths == if found != map[] then paths0[k := found] else paths0
    ensures Built(paths, todo - {k}, keys, good)
  {
    assert Get(paths, k) == found;
    forall n | n in keys && n !in todo
      ensures Get(paths, n) == Get(paths0, n)
    {
    }
  }

  /** Some valve has the number `i`. */
  ghost predicate Numbered(index: map<string, nat>, i: nat)
  {
    exists a :: a in index && index[a] == i
  }

  /** Different valves have different numbers, each below `n`, and every
      number below `n` is used. */
  ghost predicate Numbering(index: map<string, nat>, n: nat)
  {
    (forall a, b :: a in index && b in index && a != b ==> index[a] != index[b]) &&
    (forall a :: a in index ==> index[a] < n) &&
    (forall i :: 0 <= i < n ==> Numbered(index, i))
  }

  /** Giving a new valve the next number keeps a numbering. */
  lemma NumberNext(index: map<string, nat>, n: nat, k: string)
    requires Numbering(index, n) && k !in index
    ensures Numbering(index[k := n], n + 1)
  {
    var next := index[k := n];
    forall i | 0 <= i < n + 1
      ensures Numbered(next, i)
    {
      if i == n {
        assert next[k] == i;
      } else {
        assert Numbered(index, i);
        var a :| a in index && index[a] == i;
        assert next[a] == i;
      }
    }
  }

  /** The numbering of `valves.keys().enumerate()`: every valve gets a
      different number below the number of valves, and every such number is
      used. The order follows the hash map and is left open. */
  method ValveIndex(valves: Valves) returns (index: map<string, nat>)
    ensures index.Keys == valves.Keys && Numbering(index, |valves|)
  {
    index := map[];
    var todo := valves.Keys;
    var n := 0;
    while todo != {}
      invariant todo <= valves.Keys && index.Keys == valves.Keys - todo && n + |todo| == |valves.Keys|
      invariant Numbering(index, n)
      decreases |todo|
    {
      var k :| k in todo;
      NumberNext(index, n, k);
      index, n, todo := index[k := n], n + 1, todo - {k};
    }
  }
}
