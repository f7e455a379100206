# Grid ecosystem simulation — a Dafny model

A model of the simulation core of `ecosistem.cpp`: an ordered population
of plants (`Planta`), herbivores (`Erbivor`) and carnivores (`Carnivor`)
on a 10 × 10 toroidal grid. Every entity has a name, an integer energy and
an integer position, and is alive while its energy is positive
(`esteInViata`). The ecosystem (`Ecosistem`) owns the population.
`adaugaEntitate` appends an entity. `simuleaza` runs one step: a single pass
over the population in order, in which each live entity acts (a plant grows
by 5) and each live animal then moves (`deplaseaza`) and feeds
(`mananca`). A stable purge of every entity whose energy is no longer
positive follows the pass. A plant can also reproduce (`reproduce`), but no
step calls it.

Files:

- `entities.dfy` (module `Entities`): kinds, positions, entities, the three
  constructors, growth, movement (with C++'s truncating `%`), reproduction.
- `feeding.dfy` (module `Feeding`): prey selection (first match in
  collection order) and the effect of one meal.
- `ecosystem.dfy` (module `Simulation`): one entity's turn, the pass, the
  purge, the `Ecosystem` class with `AddEntity`, `Feed` and `Step`, and the
  properties of a step, with three concrete scenarios.

Modelling choices:

- Entities are values (`datatype Entity`). The kind is a tag
  `Plant | Herbivore | Carnivore` in place of `dynamic_pointer_cast`. The
  ecosystem is a class whose field `entities: seq<Entity>` the methods
  reassign. Shared pointers become indices into that sequence, so "not
  itself" in a carnivore's scan is "a different index".
- `rand()` is a parameter: a `Draw` holds two raw `rand()` results, and the
  model reduces them itself (`% speed` when moving, `% 10` when
  reproducing), exactly as the source does. `Step` takes one draw per
  entry: entry `k` moves with `moves[k]`; the draws of plants and dead
  entries are unused.
- A meal sets the prey's energy to 0, so the end-of-step purge removes the
  prey. The source instead calls the prey's destructor in place
  (ecosistem.cpp:87 and :106), which is undefined behaviour and leaves
  `energie` as it was. This deviation is deliberate.
- Herbivores and carnivores never override the pure virtual `actioneaza`,
  so as written the two classes cannot be instantiated. The model gives
  animals an `Act` that changes nothing.
- Prey scans do not check liveness (ecosistem.cpp:84-85, 103-104). A prey
  that was zeroed earlier in the same step can be eaten again by a later
  predator, which again gains its full meal. `TwoPredatorsOnePrey` shows
  this, and the model keeps it.
- Movement is one-sided for herbivores. A herbivore's offset on each axis
  is `rand() % 2 - 1`, which is always -1 or 0 (ecosistem.cpp:70-71, speed
  2 at :80). On the grid it therefore stays put or steps one cell toward
  lower coordinates, wrapping from 0 to 9; it never steps toward higher
  ones (`HerbivoreStaysOrStepsDown`). A carnivore's offset, `rand() % 3 - 1`,
  covers -1, 0 and 1. This is why an odd draw keeps the herbivore of the
  seed scenarios on (2, 3) and an even one takes it to (1, 2).
- The grid size used by movement and reproduction is the literal 10. The
  map size given to the ecosystem's constructor is stored (`mapSize`) and
  never read.

## Model

| member | source | states |
|---|---|---|
| `Entities.IsAlive` | ecosistem.cpp:34 | no ensures (a predicate, energy > 0); `SurvivorsAreTheLiving`, `StepOutcome` and `DeadStayInert` state what it decides |
| `Entities.Speed` | ecosistem.cpp:80 | a herbivore's speed is 2 and a carnivore's 3 (the value at :99); the contract states that every speed exceeds 1 |
| `Entities.Shifted` | ecosistem.cpp:70-71 | one coordinate update; any coordinate no lower than speed/2 - 10 lands in [0, 10), one far below zero stays non-positive; `MoveIsWrappedOffset` gives the exact offset |
| `Entities.HerbivoreStaysOrStepsDown` | ecosistem.cpp:69-73 | on the grid a herbivore stays on each axis exactly when the draw is odd and otherwise steps one cell down, wrapping from 0 to 9 |
| `Entities.NewPlant` | ecosistem.cpp:40-41 | a new plant has the given name and position, energy 10, and is alive |
| `Entities.NewHerbivore` | ecosistem.cpp:79-80 | a new herbivore has the given name and position, energy 20, and is alive |
| `Entities.NewCarnivore` | ecosistem.cpp:98-99 | a new carnivore has the given name and position, energy 30, and is alive |
| `Entities.Act` | ecosistem.cpp:43-46 | a plant's action raises its energy by exactly 5 and changes nothing else; an animal's action changes nothing |
| `Entities.WrapGrid` | ecosistem.cpp:70-71 | C++ `a % 10`: the result lies strictly between -10 and 10, has the sign of `a` and is congruent to `a` modulo 10 |
| `Entities.Moved` | ecosistem.cpp:69-73 | a move keeps kind, name and energy, and maps a position on the grid to a position on the grid |
| `Entities.MoveIsWrappedOffset` | ecosistem.cpp:69-73 | on the grid, a move shifts each coordinate by `draw % speed - speed/2`, an offset in [-speed/2, speed-1-speed/2], modulo 10 |
| `Entities.Reproduce` | ecosistem.cpp:48-54 | with energy > 20 the plant loses exactly 10 (keeping > 10), and exactly one plant named "Noua planta" with energy 10 and both coordinates in [0,10) is appended, the rest unchanged; otherwise nothing changes |
| `Feeding.Gain` | ecosistem.cpp:86 | a meal gives a herbivore 10 and a carnivore 20 (the `+= 20` at :105); the contract states that every gain is positive |
| `Feeding.IsPrey` | ecosistem.cpp:84-85 | no ensures (a predicate): the cast-and-position test of `Erbivor::mananca`, and at :103-104 that of `Carnivor::mananca` with the self check; `HerbivoreFeeds` and `CarnivoreFeeds` restate it in the source's terms |
| `Feeding.FirstPrey` | ecosistem.cpp:83-92 | no ensures: the scan from index 0; `FirstPreyFrom` (at k = 0) and `FirstPreyIsUnique` state that it is the least prey index |
| `Feeding.FirstPreyFrom` | ecosistem.cpp:83-92 | the scan from index `k` returns the least index at or after `k` holding a prey, and none exactly when no prey lies at or after `k` |
| `Feeding.Fed` | ecosistem.cpp:82-112 | feeding (both `mananca`) keeps the population's length; what a meal does is stated by `AtMostOneMeal`, `HerbivoreFeeds` and `CarnivoreFeeds` |
| `Feeding.AtMostOneMeal` | ecosistem.cpp:82-112 | one feed moves nobody, changes no kind or name, raises the feeder's energy by exactly its gain if and only if some prey exists (by 0 otherwise, and never for a plant), and changes at most one other entry: the first prey, with only its energy zeroed |
| `Feeding.FirstPreyIsUnique` | ecosistem.cpp:83-92 | a prey with no prey before it is the one the scan returns |
| `Feeding.HerbivoreFeeds` | ecosistem.cpp:82-93 | with no plant on its cell a herbivore changes nothing; otherwise it gains 10 and exactly the first plant on its cell in collection order is consumed |
| `Feeding.CarnivoreFeeds` | ecosistem.cpp:101-112 | with no other animal on its cell a carnivore changes nothing; otherwise it gains 20 and exactly the first other animal on its cell is consumed; plants are never touched and the carnivore's own energy never falls |
| `Simulation.Turn` | ecosistem.cpp:131-140 | a turn keeps every entry's kind and name and the population's length; an entity whose energy is <= 0 when its turn comes does nothing |
| `Simulation.PassFrom` | ecosistem.cpp:131-140 | the pass keeps every entry's kind and name and the population's length |
| `Simulation.Pass` | ecosistem.cpp:131-140 | the whole pass keeps every entry's kind and name and the population's length |
| `Simulation.Survivors` | ecosistem.cpp:142-144 | the `erase(remove_if…)` purge never grows the population and leaves only live entities; `SurvivorsAreTheLiving`, `SurvivorsCount`, `SurvivorsOfConcat` and `SurvivorsKeepOrder` make it exactly the stable filter |
| `Simulation.Ecosystem.constructor` | ecosistem.cpp:122-124 | a new ecosystem is empty and stores its map size |
| `Simulation.Ecosystem.AddEntity` | ecosistem.cpp:126-128 | the entity is appended at the end: the size grows by one and the prefix is unchanged |
| `Simulation.Ecosystem.Feed` | ecosistem.cpp:82-112 | the in-place scan with early return leaves the population equal to `Fed` of the old one |
| `Simulation.Ecosystem.Step` | ecosistem.cpp:130-145 | the new population is the purge of the pass over the old one; it is no larger, and every remaining entity is alive |
| `Simulation.SurvivorsAreTheLiving` | ecosistem.cpp:141-144 | after the purge every entity is alive, an entity remains if and only if it was present and alive, and the size never grows |
| `Simulation.SurvivorsCount` | ecosistem.cpp:141-144 | the purge keeps each live entity as many times as it occurred and no dead one |
| `Simulation.SurvivorsOfConcat` | ecosistem.cpp:141-144 | the purge distributes over concatenation (it is a stable filter) |
| `Simulation.SurvivorPlace` | ecosistem.cpp:141-144 | a live entity lands right after the survivors of the entries before it |
| `Simulation.SurvivorsKeepOrder` | ecosistem.cpp:141-144 | two live entities keep their relative order through the purge |
| `Simulation.OthersOnlyEaten` | ecosistem.cpp:131-140 | during another entity's turn an entry is either untouched or has only its energy set to 0 |
| `Simulation.OwnTurn` | ecosistem.cpp:131-140 | a live entity survives its own turn; a plant gains exactly 5 and stays put; an animal gains either nothing or exactly one meal |
| `Simulation.TurnKeepsInGrid` | ecosistem.cpp:131-140 | a turn keeps every position on the grid |
| `Simulation.PassFromKeepsInGrid` | ecosistem.cpp:131-140 | the whole pass keeps every position on the grid |
| `Simulation.DeadStayInert` | ecosistem.cpp:131-132 | an entity dead when the step starts never moves and never comes back to life during the pass |
| `Simulation.StepOutcome` | ecosistem.cpp:130-145 | after a step the population is no larger, all remaining entities are alive, they are exactly the live entities at the end of the pass, and a population on the grid stays on the grid |
| `Simulation.Seed` | ecosistem.cpp:158-160 | the program's seed population has three entities, all on the grid |
| `Simulation.SeedStepHerbivoreEats` | ecosistem.cpp:130-145 | from the seed population, a herbivore that stays on (2,3) eats the plant grown to 15 and reaches 30; the plant is purged and the carnivore keeps 30 |
| `Simulation.SeedStepNobodyEats` | ecosistem.cpp:130-145 | from the seed population, a herbivore that steps to (1,2) eats nothing and all three remain, the plant at 15 |
| `Simulation.TwoPredatorsOnePrey` | ecosistem.cpp:101-112 | two carnivores on one herbivore's cell both eat it within one step and both gain 20; only they remain |

## Left out

- Console output (`afiseaza` and every `cout`), and `main`. `main`'s seed
  population appears as `Seed` and the two seed scenarios.
- `srand(time(0))` and the global `rand()`. Their values are parameters.
  The order in which C++ evaluates the two `rand()` calls in
  `make_pair(rand() % 10, rand() % 10)` is unspecified. The model takes
  both values as given.
- `rataSupravietuire` (never read), the `tipHrana` strings (implied by the
  kind) and `getPozitie` (the `pos` field).
- `int` overflow: energies and coordinates are unbounded integers. A plant
  grows by 5 every step without limit, so the source's `int` would
  eventually overflow. That overflow is undefined behaviour, not a
  wrap-around to model.
- Aliasing through `shared_ptr`: adding the same object twice makes two
  entries share one state in the source. Here the two entries are two
  independent values.
- The destructor calls on consumed prey are replaced by zeroing the prey's
  energy, as described above.
- `Entities.Reproduce`: the plant is modelled as an entry of the population
  it reproduces into. The source also allows a plant outside the vector it
  is given; that case is not modelled.
