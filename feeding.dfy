/** What an animal eats when it feeds: `Erbivor::mananca` takes the first
    plant on its cell, `Carnivor::mananca` the first other animal on its cell.
    A meal gives the predator a fixed gain and marks the prey dead by zeroing
    its energy; the prey stays in the population until the ecosystem purges
    it at the end of the step. */
module Feeding {
  import opened Entities

  datatype Option<T> = None | Some(value: T)

  const HerbivoreGain: int := 10
  const CarnivoreGain: int := 20

  /** Energy an animal of kind `k` gains from one meal. */
  function Gain(k: Kind): (g: int)
    requires k.IsAnimal()
    ensures g > 0
  {
    if k == Herbivore then HerbivoreGain else CarnivoreGain
  }

  /** Whether entity `j` is something entity `i` would eat: a herbivore takes
      a plant on its own cell, a carnivore any animal on its own cell other
      than itself, and a plant eats nothing. Whether the prey is still alive
      is not looked at. */
  predicate IsPrey(s: seq<Entity>, i: nat, j: nat)
    requires i < |s| && j < |s|
  {
    match s[i].kind
    case Plant => false
    case Herbivore => s[j].kind == Plant && s[j].pos == s[i].pos
    case Carnivore => s[j].kind.IsAnimal() && s[j].pos == s[i].pos && j != i
  }

  /** The first prey of `i` at index `k` or later, in collection order. */
  function FirstPreyFrom(s: seq<Entity>, i: nat, k: nat): (r: Option<nat>)
    requires i < |s| && k <= |s|
    ensures r.Some? ==> k <= r.value < |s| && IsPrey(s, i, r.value)
    ensures r.Some? ==> forall j :: k <= j < r.value ==> !IsPrey(s, i, j)
    ensures r.None? <==> forall j :: k <= j < |s| ==> !IsPrey(s, i, j)
    decreases |s| - k
  {
    if k == |s| then None
    else if IsPrey(s, i, k) then Some(k)
    else FirstPreyFrom(s, i, k + 1)
  }

  function FirstPrey(s: seq<Entity>, i: nat): Option<nat>
    requires i < |s|
  {
    FirstPreyFrom(s, i, 0)
  }

  /** The population after entity `i` feeds: if it has a prey, it gains its
      meal and the first prey's energy becomes zero; otherwise nothing changes. */
  function Fed(s: seq<Entity>, i: nat): (t: seq<Entity>)
    requires i < |s|
    ensures |t| == |s|
  {
    match FirstPrey(s, i)
    case None => s
    case Some(j) =>
      s[i := s[i].(energy := s[i].energy + Gain(s[i].kind))][j := s[j].(energy := 0)]
  }

  /** One call of `mananca` is at most one meal: the feeder's energy rises by
      exactly its gain when some prey shares its cell and by nothing
      otherwise; besides the feeder at most one entry changes, and that entry
      is the first prey in collection order, with only its energy zeroed.
      Nobody moves and nobody changes kind or name. */
  lemma AtMostOneMeal(s: seq<Entity>, i: nat)
    requires i < |s|
    ensures var t := Fed(s, i);
            && (forall k :: 0 <= k < |s| ==>
                  t[k].kind == s[k].kind && t[k].name == s[k].name && t[k].pos == s[k].pos)
            && (s[i].kind == Plant ==> t == s)
            && (s[i].kind.IsAnimal() ==>
                  ((exists j :: 0 <= j < |s| && IsPrey(s, i, j)) <==> t[i].energy == s[i].energy + Gain(s[i].kind))
                  && ((forall j :: 0 <= j < |s| ==> !IsPrey(s, i, j)) <==> t[i].energy == s[i].energy))
            && (forall k :: 0 <= k < |s| && k != i && t[k] != s[k] ==>
                  && IsPrey(s, i, k) && t[k] == s[k].(energy := 0)
                  && forall j :: 0 <= j < k ==> !IsPrey(s, i, j))
            && (forall k, m :: 0 <= k < |s| && 0 <= m < |s| && k != i && m != i && t[k] != s[k] && t[m] != s[m] ==> k == m)
  {
  }

  /** A prey with no prey before it is the first prey. */
  lemma FirstPreyIsUnique(s: seq<Entity>, i: nat, j: nat)
    requires i < |s| && j < |s| && IsPrey(s, i, j)
    requires forall k :: 0 <= k < j ==> !IsPrey(s, i, k)
    ensures FirstPrey(s, i) == Some(j)
  {
  }

  /** `Erbivor::mananca`, in the source's own terms: with no plant on its
      cell a herbivore changes nothing; otherwise it gains 10 and the first
      plant on its cell in collection order, and only that entry, is consumed. */
  lemma HerbivoreFeeds(s: seq<Entity>, i: nat)
    requires i < |s| && s[i].kind == Herbivore
    ensures (forall j :: 0 <= j < |s| ==> !(s[j].kind == Plant && s[j].pos == s[i].pos)) ==> Fed(s, i) == s
    ensures forall j :: 0 <= j < |s| && s[j].kind == Plant && s[j].pos == s[i].pos
                        && (forall k :: 0 <= k < j ==> !(s[k].kind == Plant && s[k].pos == s[i].pos)) ==>
              Fed(s, i) == s[i := s[i].(energy := s[i].energy + 10)][j := s[j].(energy := 0)]
  {
    if forall j :: 0 <= j < |s| ==> !(s[j].kind == Plant && s[j].pos == s[i].pos) {
      assert FirstPrey(s, i).None?;
    }
    forall j | 0 <= j < |s| && s[j].kind == Plant && s[j].pos == s[i].pos
               && (forall k :: 0 <= k < j ==> !(s[k].kind == Plant && s[k].pos == s[i].pos))
      ensures Fed(s, i) == s[i := s[i].(energy := s[i].energy + 10)][j := s[j].(energy := 0)]
    {
      FirstPreyIsUnique(s, i, j);
    }
  }

  /** `Carnivor::mananca`, in the source's own terms: with no other animal on
      its cell a carnivore changes nothing; otherwise it gains 20 and the
      first other animal on its cell in collection order, and only that
      entry, is consumed. A plant is never consumed and the carnivore never
      consumes itself. */
  lemma CarnivoreFeeds(s: seq<Entity>, i: nat)
    requires i < |s| && s[i].kind == Carnivore
    ensures (forall j :: 0 <= j < |s| ==> !(s[j].kind.IsAnimal() && s[j].pos == s[i].pos && j != i)) ==> Fed(s, i) == s
    ensures forall j :: 0 <= j < |s| && s[j].kind.IsAnimal() && s[j].pos == s[i].pos && j != i
                        && (forall k :: 0 <= k < j ==> !(s[k].kind.IsAnimal() && s[k].pos == s[i].pos && k != i)) ==>
              Fed(s, i) == s[i := s[i].(energy := s[i].energy + 20)][j := s[j].(energy := 0)]
    ensures forall k :: 0 <= k < |s| && s[k].kind == Plant ==> Fed(s, i)[k] == s[k]
    ensures Fed(s, i)[i].energy >= s[i].energy
  {
    if forall j :: 0 <= j < |s| ==> !(s[j].kind.IsAnimal() && s[j].pos == s[i].pos && j != i) {
      assert FirstPrey(s, i).None?;
    }
    forall j | 0 <= j < |s| && s[j].kind.IsAnimal() && s[j].pos == s[i].pos && j != i
               && (forall k :: 0 <= k < j ==> !(s[k].kind.IsAnimal() && s[k].pos == s[i].pos && k != i))
      ensures Fed(s, i) == s[i := s[i].(energy := s[i].energy + 20)][j := s[j].(energy := 0)]
    {
      FirstPreyIsUnique(s, i, j);
    }
    AtMostOneMeal(s, i);
  }
}
