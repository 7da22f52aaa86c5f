/** Day 23: one round as the source runs it, collecting proposals into a
    map and then applying the uncontested ones to the set of elves. */
module Day23Step {
  import opened Common
  import opened Day23

  /** The loop over the directions in `step`: skip blocked directions,
      stop at the first free one. */
  method FirstFreeOf(state: set<Tile>, e: Tile, dirs: seq<Direction>) returns (p: Option<Tile>)
    ensures p == FirstFree(state, e, dirs)
  {
    p := None;
    var k := 0;
    while k < |dirs|
      invariant k <= |dirs|
      invariant FirstFree(state, e, dirs) == FirstFree(state, e, dirs[k..])
    {
      assert dirs[k..][1..] == dirs[k + 1..];
      if !Blocked(state, e, dirs[k]) {
        p := Some(Target(e, dirs[k]));
        return;
      }
      k := k + 1;
    }
  }

  /** The proposal of one elf: its neighbourhood is looked up first, and
      an elf without neighbours is skipped. */
  method ProposalOf(state: set<Tile>, dirs: seq<Direction>, e: Tile) returns (p: Option<Tile>)
    ensures p == Propose(state, dirs, e)
  {
    var around := Around(e);
    var active := false;
    for i := 0 to 8
      invariant active <==> exists j :: 0 <= j < i && around[j] in state
    {
      active := active || around[i] in state;
    }
    if !active {
      return None;
    }
    p := FirstFreeOf(state, e, dirs);
  }

  /** The proposals map after the elves of `done` were looked at: a tile
      maps to `Some(e)` while `e` alone proposed it, and to `None` once two
      elves did. */
  ghost predicate Collected(props: map<Tile, Option<Tile>>, done: set<Tile>, state: set<Tile>, dirs: seq<Direction>)
  {
    Proposed(props, done, state, dirs) && Complete(props, done, state, dirs) &&
    Single(props, done, state, dirs) && Contested(props, done, state, dirs)
  }

  /** What the first loop of `step` does with one elf's proposal. */
  function AddProposal(props: map<Tile, Option<Tile>>, e: Tile, p: Option<Tile>): map<Tile, Option<Tile>>
  {
    match p
    case None => props
    case Some(t) => if t in props then props[t := None] else props[t := Some(e)]
  }

  /** Every tile in the map has a proposer among the elves looked at. */
  ghost predicate Proposed(props: map<Tile, Option<Tile>>, done: set<Tile>, state: set<Tile>, dirs: seq<Direction>)
  {
    forall p :: p in props ==> exists e :: e in done && Propose(state, dirs, e) == Some(p)
  }

  /** Every proposal so far has its tile in the map. */
  ghost predicate Complete(props: map<Tile, Option<Tile>>, done: set<Tile>, state: set<Tile>, dirs: seq<Direction>)
  {
    forall e :: e in done && Propose(state, dirs, e).Some? ==> Propose(state, dirs, e).value in props
  }

  lemma {:induction false} CompleteAdd(props: map<Tile, Option<Tile>>, done: set<Tile>, state: set<Tile>, dirs: seq<Direction>, e: Tile)
    requires Complete(props, done, state, dirs)
    ensures Complete(AddProposal(props, e, Propose(state, dirs, e)), done + {e}, state, dirs)
  {
  }

  /** A `Some(e)` entry names the one elf so far proposing its tile. */
  ghost predicate Single(props: map<Tile, Option<Tile>>, done: set<Tile>, state: set<Tile>, dirs: seq<Direction>)
  {
    forall p :: p in props && props[p].Some? ==>
      props[p].value in done && Propose(state, dirs, props[p].value) == Some(p) &&
      forall f :: f in done && Propose(state, dirs, f) == Some(p) ==> f == props[p].value
  }

  /** A `None` entry has two different proposers. */
  ghost predicate Contested(props: map<Tile, Option<Tile>>, done: set<Tile>, state: set<Tile>, dirs: seq<Direction>)
  {
    forall p :: p in props && props[p].None? ==>
      exists e, f :: e in done && f in done && e != f && Propose(state, dirs, e) == Some(p) && Propose(state, dirs, f) == Some(p)
  }

  lemma {:induction false} ProposedAdd(props: map<Tile, Option<Tile>>, done: set<Tile>, state: set<Tile>, dirs: seq<Direction>, e: Tile)
    requires Proposed(props, done, state, dirs)
    ensures Proposed(AddProposal(props, e, Propose(state, dirs, e)), done + {e}, state, dirs)
  {
    var next := AddProposal(props, e, Propose(state, dirs, e));
    forall q | q in next
      ensures exists f :: f in done + {e} && Propose(state, dirs, f) == Some(q)
    {
      if q !in props {
        assert e in done + {e};
      } else {
        var f :| f in done && Propose(state, dirs, f) == Some(q);
        assert f in done + {e};
      }
    }
  }

  lemma {:induction false} SingleAdd(props: map<Tile, Option<Tile>>, done: set<Tile>, state: set<Tile>, dirs: seq<Direction>, e: Tile)
    requires Single(props, done, state, dirs) && e !in done
    requires Complete(props, done, state, dirs)
    ensures Single(AddProposal(props, e, Propose(state, dirs, e)), done + {e}, state, dirs)
  {
  }

  lemma {:induction false} ContestedAdd(props: map<Tile, Option<Tile>>, done: set<Tile>, state: set<Tile>, dirs: seq<Direction>, e: Tile)
    requires Single(props, done, state, dirs) && Contested(props, done, state, dirs) && e !in done
    ensures Contested(AddProposal(props, e, Propose(state, dirs, e)), done + {e}, state, dirs)
  {
    var p := Propose(state, dirs, e);
    var next := AddProposal(props, e, p);
    var done' := done + {e};
    forall q | q in next && next[q].None?
      ensures exists a, b :: a in done' && b in done' && a != b && Propose(state, dirs, a) == Some(q) && Propose(state, dirs, b) == Some(q)
    {
      if p == Some(q) && props[q].Some? {
        var a := props[q].value;
        assert a in done' && e in done' && a != e;
      } else {
        var a, b :| a in done && b in done && a != b && Propose(state, dirs, a) == Some(q) && Propose(state, dirs, b) == Some(q);
        assert a in done' && b in done';
      }
    }
  }

  /** Looking at one more elf keeps the map `Collected`. */
  lemma {:induction false} CollectedAdd(props: map<Tile, Option<Tile>>, done: set<Tile>, state: set<Tile>, dirs: seq<Direction>, e: Tile)
    requires Collected(props, done, state, dirs) && e !in done
    ensures Collected(AddProposal(props, e, Propose(state, dirs, e)), done + {e}, state, dirs)
  {
    ProposedAdd(props, done, state, dirs, e);
    CompleteAdd(props, done, state, dirs, e);
    SingleAdd(props, done, state, dirs, e);
    ContestedAdd(props, done, state, dirs, e);
  }

  /** The first loop of `step`: every elf's proposal goes into the map. */
  method CollectProposals(state: set<Tile>, dirs: seq<Direction>) returns (props: map<Tile, Option<Tile>>)
    ensures Collected(props, state, state, dirs)
  {
    props := map[];
    var todo := state;
    while todo != {}
      invariant todo <= state
      invariant Collected(props, state - todo, state, dirs)
      decreases |todo|
    {
      var e :| e in todo;
      var p := ProposalOf(state, dirs, e);
      CollectedAdd(props, state - todo, state, dirs, e);
      props := AddProposal(props, e, p);
      assert state - (todo - {e}) == (state - todo) + {e};
      todo := todo - {e};
    }
  }

  /** The elves that move: the single proposers of the proposed tiles. */
  ghost function Movers(props: map<Tile, Option<Tile>>, keys: set<Tile>): set<Tile>
  {
    set p | p in keys && p in props && props[p].Some? :: props[p].value
  }

  /** The tiles that are taken. */
  ghost function Taken(props: map<Tile, Option<Tile>>, keys: set<Tile>): set<Tile>
  {
    set p | p in keys && p in props && props[p].Some?
  }

  lemma {:induction false} GrowKeys(props: map<Tile, Option<Tile>>, keys: set<Tile>, p: Tile)
    requires p in props
    ensures Movers(props, keys + {p}) == Movers(props, keys) + (if props[p].Some? then {props[p].value} else {})
    ensures Taken(props, keys + {p}) == Taken(props, keys) + (if props[p].Some? then {p} else {})
  {
  }

  /** The collected map meets what applying it needs. */
  lemma {:induction false} CollectedApplies(props: map<Tile, Option<Tile>>, state: set<Tile>, dirs: seq<Direction>)
    requires Collected(props, state, state, dirs)
    ensures Applicable(state, props)
  {
  }

  /** With every elf looked at, the map's single proposers are exactly the
      elves that move, and their tiles exactly the tiles they move to. */
  lemma {:induction false} CollectedNext(props: map<Tile, Option<Tile>>, state: set<Tile>, dirs: seq<Direction>)
    requires Collected(props, state, state, dirs)
    ensures Next(state, dirs) == (state - Movers(props, props.Keys)) + Taken(props, props.Keys)
  {
    var movers := Movers(props, props.Keys);
    var taken := Taken(props, props.Keys);
    forall e | e in state
      ensures e in movers <==> Unique(state, dirs, e)
    {
      if Unique(state, dirs, e) {
        var p := Propose(state, dirs, e).value;
        assert p in props;
        assert props[p].Some? && props[p].value == e;
      }
      if e in movers {
        var p :| p in props && props[p].Some? && props[p].value == e;
      }
    }
    forall t | t in taken
      ensures exists e :: e in state && Unique(state, dirs, e) && Propose(state, dirs, e).value == t
    {
      var e := props[t].value;
      assert Unique(state, dirs, e);
    }
    forall e | e in state && Unique(state, dirs, e)
      ensures Propose(state, dirs, e).value in taken
    {
      var p := Propose(state, dirs, e).value;
      assert p in props && props[p].Some?;
    }
  }

  /** Each uncontested entry moves an elf to an empty tile, and no elf
      appears in two entries. */
  ghost predicate Applicable(state: set<Tile>, props: map<Tile, Option<Tile>>)
  {
    (forall p :: p in props && props[p].Some? ==> props[p].value in state && p !in state) &&
    forall p, q :: p in props && q in props && props[p].Some? && props[q].Some? && props[p].value == props[q].value ==> p == q
  }

  /** One entry applied: a mover is still in place and its tile still
      empty, so the set keeps its size and gains the entry's effect. */
  lemma {:induction false} ApplyOne(state: set<Tile>, props: map<Tile, Option<Tile>>, done: set<Tile>, p: Tile, next: set<Tile>)
    requires Applicable(state, props)
    requires p in props && p !in done
    requires forall x :: x in next <==> (x in state && x !in Movers(props, done)) || x in Taken(props, done)
    ensures props[p].Some? ==> props[p].value in next && p !in next - {props[p].value}
    ensures forall x :: x in (if props[p].Some? then (next - {props[p].value}) + {p} else next) <==>
                        (x in state && x !in Movers(props, done + {p})) || x in Taken(props, done + {p})
    ensures Taken(props, done + {p}) != {} <==> Taken(props, done) != {} || props[p].Some?
  {
    GrowKeys(props, done, p);
    if props[p].Some? {
      var from := props[p].value;
      assert from !in Movers(props, done);
      assert from !in Taken(props, done);
    }
  }

  /** The body of the second loop: an uncontested entry moves its elf. */
  method ApplyEntry(state: set<Tile>, props: map<Tile, Option<Tile>>, ghost done: set<Tile>, p: Tile, cur: set<Tile>)
    returns (next: set<Tile>, moved: bool)
    requires Applicable(state, props)
    requires p in props && p !in done
    requires forall x :: x in cur <==> (x in state && x !in Movers(props, done)) || x in Taken(props, done)
    ensures forall x :: x in next <==> (x in state && x !in Movers(props, done + {p})) || x in Taken(props, done + {p})
    ensures |next| == |cur|
    ensures moved <==> props[p].Some?
    ensures Taken(props, done + {p}) != {} <==> Taken(props, done) != {} || moved
  {
    ApplyOne(state, props, done, p, cur);
    next := cur;
    moved := false;
    if props[p].Some? {
      var from := props[p].value;
      moved := true;
      next := next - {from};
      next := next + {p};
    }
  }

  /** The second loop of `step`: for every uncontested tile, remove its
      proposer and add the tile. The elves that move are still in place
      and their tiles still empty when their turn comes, and no two
      entries share a proposer, so the set keeps its size. */
  method ApplyProposals(state: set<Tile>, props: map<Tile, Option<Tile>>) returns (next: set<Tile>, movement: bool)
    requires Applicable(state, props)
    ensures next == (state - Movers(props, props.Keys)) + Taken(props, props.Keys)
    ensures |next| == |state|
    ensures movement <==> Taken(props, props.Keys) != {}
  {
    next := state;
    movement := false;
    var keys := props.Keys;
    ghost var done: set<Tile> := {};
    while keys != {}
      invariant forall x :: x in props.Keys <==> x in keys || x in done
      invariant forall x :: x in keys ==> x !in done
      invariant forall x :: x in next <==> (x in state && x !in Movers(props, done)) || x in Taken(props, done)
      invariant |next| == |state|
      invariant movement <==> Taken(props, done) != {}
      decreases |keys|
    {
      var p :| p in keys;
      var moved;
      next, moved := ApplyEntry(state, props, done, p, next);
      movement := movement || moved;
      keys := keys - {p};
      done := done + {p};
    }
    assert done == props.Keys;
  }

  /** `step`: collect the proposals, then move each elf whose tile nobody
      else proposed. The round is `Next`, keeps the number of elves, and
      reports movement exactly when some elf moved, which is exactly when
      the set changed. */
  method Step(state: set<Tile>, dirs: seq<Direction>) returns (next: set<Tile>, movement: bool)
    ensures next == Next(state, dirs)
    ensures |next| == |state|
    ensures movement <==> exists e :: e in state && Unique(state, dirs, e)
    ensures movement <==> next != state
  {
    var props := CollectProposals(state, dirs);
    CollectedApplies(props, state, dirs);
    next, movement := ApplyProposals(state, props);
    CollectedNext(props, state, dirs);
    if movement {
      ghost var t :| t in Taken(props, props.Keys);
      assert t in next && t !in state;
      assert Unique(state, dirs, props[t].value);
    }
  }
}
