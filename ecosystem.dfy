/** The ecosystem: it owns the ordered population and runs a simulation
    step, one pass over the population in order (each live entity acts;
    an animal then moves and feeds) followed by a stable purge of every
    entity whose energy is no longer positive. */
module Simulation {
  import opened Entities
  import opened Feeding

  /** Same length, and every entry keeps its kind and name. */
  predicate SameRoster(s: seq<Entity>, t: seq<Entity>) {
    |s| == |t| && forall k :: 0 <= k < |s| ==> t[k].kind == s[k].kind && t[k].name == s[k].name
  }

  predicate AllInGrid(s: seq<Entity>) {
    forall k :: 0 <= k < |s| ==> InGrid(s[k].pos)
  }

  /** The turn of entity `k` within a step, drawing its move from `d`: a dead
      entity does nothing; a live one acts, and an animal then moves and
      feeds on the whole population. */
  function Turn(s: seq<Entity>, k: nat, d: Draw): (t: seq<Entity>)
    requires k < |s|
    ensures SameRoster(s, t)
    ensures !IsAlive(s[k]) ==> t == s
  {
    if !IsAlive(s[k]) then s
    else
      var acted := s[k := Act(s[k])];
      if s[k].kind.IsAnimal() then
        var moved := acted[k := Moved(acted[k], d)];
        AtMostOneMeal(moved, k);
        Fed(moved, k)
      else acted
  }

  /** The turns of entities `k`, `k + 1`, ..., in collection order; entity
      `j` draws its move from `moves[j]`. */
  function PassFrom(s: seq<Entity>, moves: seq<Draw>, k: nat): (t: seq<Entity>)
    requires |moves| == |s| && k <= |s|
    ensures SameRoster(s, t)
    decreases |s| - k
  {
    if k == |s| then s else PassFrom(Turn(s, k, moves[k]), moves, k + 1)
  }

  /** The whole pass of one step, before the purge. */
  function Pass(s: seq<Entity>, moves: seq<Draw>): (t: seq<Entity>)
    requires |moves| == |s|
    ensures SameRoster(s, t)
  {
    PassFrom(s, moves, 0)
  }

  /** The end-of-step purge: the entities still alive, in their order. */
  function Survivors(s: seq<Entity>): (r: seq<Entity>)
    ensures |r| <= |s|
    ensures forall k :: 0 <= k < |r| ==> IsAlive(r[k])
  {
    if s == [] then []
    else (if IsAlive(s[0]) then [s[0]] else []) + Survivors(s[1..])
  }

  /** The ecosystem itself. */
  class Ecosystem {
    /** The population, in insertion order. */
    var entities: seq<Entity>
    /** The map size the ecosystem is created with; nothing consults it. */
    var mapSize: int

    constructor (mapSize: int)
      ensures entities == [] && this.mapSize == mapSize
    {
      entities := [];
      this.mapSize := mapSize;
    }

    /** `adaugaEntitate`: append at the end. */
    method AddEntity(e: Entity)
      modifies this`entities
      ensures entities == old(entities) + [e]
    {
      entities := entities + [e];
    }

    /** `mananca` of the animal at index `i`: scan the population in order
        and take the first prey, if any. */
    method Feed(i: nat)
      requires i < |entities|
      modifies this`entities
      ensures entities == Fed(old(entities), i)
    {
      var j := 0;
      while j < |entities|
        invariant 0 <= j <= |entities|
        invariant entities == old(entities)
        invariant FirstPreyFrom(entities, i, j) == FirstPrey(entities, i)
      {
        if IsPrey(entities, i, j) {
          var feeder := entities[i];
          entities := entities[i := feeder.(energy := feeder.energy + Gain(feeder.kind))];
          entities := entities[j := entities[j].(energy := 0)];
          return;
        }
        j := j + 1;
      }
    }

    /** `simuleaza`: one step. Entity `k` draws its move from `moves[k]`. */
    method Step(moves: seq<Draw>)
      requires |moves| == |entities|
      modifies this`entities
      ensures entities == Survivors(Pass(old(entities), moves))
      ensures |entities| <= |old(entities)|
      ensures forall k :: 0 <= k < |entities| ==> IsAlive(entities[k])
    {
      var i := 0;
      while i < |entities|
        invariant |entities| == |moves| && 0 <= i <= |entities|
        invariant PassFrom(entities, moves, i) == Pass(old(entities), moves)
      {
        ghost var before := entities;
        if IsAlive(entities[i]) {
          entities := entities[i := Act(entities[i])];
          if entities[i].kind.IsAnimal() {
            entities := entities[i := Moved(entities[i], moves[i])];
            Feed(i);
          }
        }
        assert entities == Turn(before, i, moves[i]);
        i := i + 1;
      }
      StepOutcome(old(entities), moves);
      entities := Survivors(entities);
    }
  }

  // The purge ---------------------------------------------------------------

  /** The purge keeps exactly the live entities: every survivor is alive,
      an entity is kept if and only if it is alive, and the population
      never grows. */
  lemma {:induction false} SurvivorsAreTheLiving(s: seq<Entity>)
    ensures var r := Survivors(s);
            && |r| <= |s|
            && (forall k :: 0 <= k < |r| ==> IsAlive(r[k]))
            && (forall e :: e in r <==> e in s && IsAlive(e))
  {
    if s != [] {
      SurvivorsAreTheLiving(s[1..]);
      assert s == [s[0]] + s[1..];
    }
  }

  /** The purge removes no live entity: each live entity is kept as many
      times as it occurs, each dead one not at all. */
  lemma {:induction false} SurvivorsCount(s: seq<Entity>, e: Entity)
    ensures multiset(Survivors(s))[e] == if IsAlive(e) then multiset(s)[e] else 0
  {
    if s != [] {
      SurvivorsCount(s[1..], e);
      assert s == [s[0]] + s[1..];
      assert multiset(s) == multiset{s[0]} + multiset(s[1..]);
    }
  }

  /** The purge is a stable filter: purging a concatenation is the
      concatenation of the purges, so survivors keep their relative order. */
  lemma {:induction false} SurvivorsOfConcat(a: seq<Entity>, b: seq<Entity>)
    ensures Survivors(a + b) == Survivors(a) + Survivors(b)
  {
    if a != [] {
      assert (a + b)[0] == a[0] && (a + b)[1..] == a[1..] + b;
      SurvivorsOfConcat(a[1..], b);
      var head := if IsAlive(a[0]) then [a[0]] else [];
      assert Survivors(a + b) == head + Survivors(a[1..] + b);
      assert Survivors(a) == head + Survivors(a[1..]);
    } else {
      assert a + b == b;
    }
  }

  /** Where a live entity lands after the purge: at the index given by the
      number of survivors before it. Two live entities `j < k` therefore land
      at increasing indices, in their original relative order. */
  lemma SurvivorPlace(s: seq<Entity>, k: nat)
    requires k < |s| && IsAlive(s[k])
    ensures var p := |Survivors(s[..k])|;
            p < |Survivors(s)| && Survivors(s)[p] == s[k]
            && Survivors(s)[..p] == Survivors(s[..k])
  {
    assert s == s[..k] + [s[k]] + s[k + 1..];
    SurvivorsOfConcat(s[..k] + [s[k]], s[k + 1..]);
    SurvivorsOfConcat(s[..k], [s[k]]);
    assert Survivors([s[k]]) == [s[k]];
  }

  lemma SurvivorsKeepOrder(s: seq<Entity>, j: nat, k: nat)
    requires j < k < |s| && IsAlive(s[j]) && IsAlive(s[k])
    ensures var p, q := |Survivors(s[..j])|, |Survivors(s[..k])|;
            p < q < |Survivors(s)| && Survivors(s)[p] == s[j] && Survivors(s)[q] == s[k]
  {
    SurvivorPlace(s, j);
    SurvivorPlace(s, k);
    assert s[..k] == s[..j] + [s[j]] + s[j + 1..k];
    SurvivorsOfConcat(s[..j] + [s[j]], s[j + 1..k]);
    SurvivorsOfConcat(s[..j], [s[j]]);
    assert Survivors([s[j]]) == [s[j]];
  }

  // The pass ----------------------------------------------------------------

  /** During another entity's turn, entity `m` is either untouched or eaten:
      its energy becomes zero and nothing else about it changes. */
  lemma OthersOnlyEaten(s: seq<Entity>, k: nat, d: Draw, m: nat)
    requires k < |s| && m < |s| && m != k
    ensures Turn(s, k, d)[m] == s[m] || Turn(s, k, d)[m] == s[m].(energy := 0)
  {
  }

  /** In its own turn a live entity stays alive and stays put unless it is
      an animal: a plant's energy rises by exactly 5; an animal keeps its
      energy or gains exactly one meal. */
  lemma OwnTurn(s: seq<Entity>, k: nat, d: Draw)
    requires k < |s| && IsAlive(s[k])
    ensures var e := Turn(s, k, d)[k];
            && IsAlive(e)
            && (s[k].kind == Plant ==> e == s[k].(energy := s[k].energy + Growth))
            && (s[k].kind.IsAnimal() ==>
                  e.energy == s[k].energy || e.energy == s[k].energy + Gain(s[k].kind))
  {
  }

  /** A turn keeps every position on the grid. */
  lemma TurnKeepsInGrid(s: seq<Entity>, k: nat, d: Draw)
    requires k < |s| && AllInGrid(s)
    ensures AllInGrid(Turn(s, k, d))
  {
  }

  lemma {:induction false} PassFromKeepsInGrid(s: seq<Entity>, moves: seq<Draw>, k: nat)
    requires |moves| == |s| && k <= |s| && AllInGrid(s)
    ensures AllInGrid(PassFrom(s, moves, k))
    decreases |s| - k
  {
    if k < |s| {
      TurnKeepsInGrid(s, k, moves[k]);
      PassFromKeepsInGrid(Turn(s, k, moves[k]), moves, k + 1);
    }
  }

  /** An entity already dead when the step starts never acts, never moves
      and never comes back to life during the pass: its turn is skipped and
      the only thing others can do to it is eat it again. */
  lemma {:induction false} DeadStayInert(s: seq<Entity>, moves: seq<Draw>, k: nat, m: nat)
    requires |moves| == |s| && k <= |s| && m < |s| && !IsAlive(s[m])
    ensures var t := PassFrom(s, moves, k);
            !IsAlive(t[m]) && t[m].pos == s[m].pos
    decreases |s| - k
  {
    if k < |s| {
      var u := Turn(s, k, moves[k]);
      if m != k {
        OthersOnlyEaten(s, k, moves[k], m);
      }
      DeadStayInert(u, moves, k + 1, m);
    }
  }

  // The step ----------------------------------------------------------------

  /** After a step every remaining entity is alive; the remaining entities
      are exactly those alive at the end of the pass, in their order; the
      population never grows (reproduction is not part of a step); and a
      population on the grid stays on the grid. */
  lemma StepOutcome(s: seq<Entity>, moves: seq<Draw>)
    requires |moves| == |s|
    ensures var r := Survivors(Pass(s, moves));
            && |r| <= |s|
            && (forall k :: 0 <= k < |r| ==> IsAlive(r[k]))
            && (forall e :: e in r <==> e in Pass(s, moves) && IsAlive(e))
            && (AllInGrid(s) ==> AllInGrid(r))
  {
    var p := Pass(s, moves);
    SurvivorsAreTheLiving(p);
    if AllInGrid(s) {
      PassFromKeepsInGrid(s, moves, 0);
      forall k | 0 <= k < |Survivors(p)| ensures InGrid(Survivors(p)[k].pos) {
        assert Survivors(p)[k] in p;
      }
    }
  }

  // Scenarios ---------------------------------------------------------------

  /** A pass over three entities is their three turns in order. */
  lemma PassUnfolds3(s: seq<Entity>, m: seq<Draw>)
    requires |s| == |m| == 3
    ensures Pass(s, m) == Turn(Turn(Turn(s, 0, m[0]), 1, m[1]), 2, m[2])
  {
    var s1 := Turn(s, 0, m[0]);
    var s2 := Turn(s1, 1, m[1]);
    var s3 := Turn(s2, 2, m[2]);
    assert PassFrom(s3, m, 3) == s3;
    assert PassFrom(s2, m, 2) == s3;
    assert PassFrom(s1, m, 1) == s3;
  }

  /** The program's seed population: a plant and a herbivore on (2, 3) and a
      carnivore on (5, 5). */
  function Seed(): (s: seq<Entity>)
    ensures |s| == 3 && AllInGrid(s)
  {
    [NewPlant("Planta1", Pos(2, 3)), NewHerbivore("Iepure", Pos(2, 3)), NewCarnivore("Lup", Pos(5, 5))]
  }

  /** If the herbivore's draws keep it on (2, 3), it eats the plant (which
      has just grown to 15) and reaches 30; the plant is purged and the
      carnivore, alone on its cell, keeps 30. */
  lemma SeedStepHerbivoreEats()
    ensures Survivors(Pass(Seed(), [Draw(0, 0), Draw(1, 1), Draw(1, 1)]))
            == [Entity("Iepure", Herbivore, 30, Pos(2, 3)), Entity("Lup", Carnivore, 30, Pos(5, 5))]
  {
    var s, m := Seed(), [Draw(0, 0), Draw(1, 1), Draw(1, 1)];
    var s1 := Turn(s, 0, m[0]);
    assert s1 == s[0 := s[0].(energy := 15)];
    var s2 := Turn(s1, 1, m[1]);
    assert IsPrey(s1, 1, 0);
    FirstPreyIsUnique(s1, 1, 0);
    assert s2 == [s1[0].(energy := 0), s1[1].(energy := 30), s1[2]];
    var s3 := Turn(s2, 2, m[2]);
    assert FirstPrey(s2, 2) == None;
    assert s3 == s2;
    PassUnfolds3(s, m);
    assert Survivors(s3) == [s3[1], s3[2]];
  }

  /** If instead the herbivore steps to (1, 2), nothing is eaten: the plant
      grows to 15 and all three remain. */
  lemma SeedStepNobodyEats()
    ensures Survivors(Pass(Seed(), [Draw(0, 0), Draw(0, 0), Draw(1, 1)]))
            == [Entity("Planta1", Plant, 15, Pos(2, 3)), Entity("Iepure", Herbivore, 20, Pos(1, 2)),
                Entity("Lup", Carnivore, 30, Pos(5, 5))]
  {
    var s, m := Seed(), [Draw(0, 0), Draw(0, 0), Draw(1, 1)];
    var s1 := Turn(s, 0, m[0]);
    var s2 := Turn(s1, 1, m[1]);
    assert FirstPrey(s2, 2) == None;
    assert FirstPrey(s1[1 := Moved(s1[1], m[1])], 1) == None;
    var s3 := Turn(s2, 2, m[2]);
    PassUnfolds3(s, m);
  }

  /** Two carnivores sharing a cell with one herbivore both eat it in the
      same step: the first meal only zeroes the herbivore's energy, and the
      second carnivore's scan does not look at liveness. Both gain 20. */
  lemma TwoPredatorsOnePrey()
    ensures var s := [NewHerbivore("H", Pos(4, 4)), NewCarnivore("C1", Pos(4, 4)), NewCarnivore("C2", Pos(4, 4))];
            Survivors(Pass(s, [Draw(1, 1), Draw(1, 1), Draw(1, 1)]))
            == [Entity("C1", Carnivore, 50, Pos(4, 4)), Entity("C2", Carnivore, 50, Pos(4, 4))]
  {
    var s := [NewHerbivore("H", Pos(4, 4)), NewCarnivore("C1", Pos(4, 4)), NewCarnivore("C2", Pos(4, 4))];
    var m := [Draw(1, 1), Draw(1, 1), Draw(1, 1)];
    var s1 := Turn(s, 0, m[0]);
    assert FirstPrey(s1, 0) == None;
    assert s1 == s;
    var s2 := Turn(s1, 1, m[1]);
    FirstPreyIsUnique(s1, 1, 0);
    assert s2 == [s[0].(energy := 0), s[1].(energy := 50), s[2]];
    var s3 := Turn(s2, 2, m[2]);
    FirstPreyIsUnique(s2, 2, 0);
    assert s3 == [s[0].(energy := 0), s[1].(energy := 50), s[2].(energy := 50)];
    PassUnfolds3(s, m);
    assert Survivors(s3) == [s3[1], s3[2]];
  }
}
