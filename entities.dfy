/** The inhabitants of the ecosystem grid: plants, herbivores and carnivores,
    how each is constructed, and the updates an entity applies to itself
    (growth, movement, reproduction). */
module Entities {

  /** Side of the square grid. Movement and reproduction hard-code it; the
      map size stored by the ecosystem is never consulted. */
  const Grid: int := 10

  const PlantEnergy: int := 10
  const HerbivoreEnergy: int := 20
  const CarnivoreEnergy: int := 30

  /** Energy a plant gains each time it acts. */
  const Growth: int := 5
  /** A plant reproduces only with energy strictly above this. */
  const ReproductionThreshold: int := 20
  /** Energy a plant pays for one offspring. */
  const ReproductionCost: int := 10
  /** Name given to every plant born by reproduction. */
  const OffspringName: string := "Noua planta"

  /** The concrete class of an entity, in place of run-time type casts. */
  datatype Kind = Plant | Herbivore | Carnivore {
    predicate IsAnimal() { this != Plant }
  }

  datatype Pos = Pos(x: int, y: int)

  datatype Entity = Entity(name: string, kind: Kind, energy: int, pos: Pos)

  /** Two raw results of `rand()`, one per coordinate. */
  datatype Draw = Draw(dx: nat, dy: nat)

  /** `esteInViata`: an entity lives while its energy is positive. */
  predicate IsAlive(e: Entity) { e.energy > 0 }

  predicate InGrid(p: Pos) { 0 <= p.x < Grid && 0 <= p.y < Grid }

  /** Maximal step length of an animal: 2 for herbivores, 3 for carnivores. */
  function Speed(k: Kind): (v: nat)
    requires k.IsAnimal()
    ensures v > 1
  {
    if k == Herbivore then 2 else 3
  }

  // Constructors ------------------------------------------------------------

  /** `Planta(nume, pozitie)`. */
  function NewPlant(name: string, pos: Pos): (e: Entity)
    ensures e.kind == Plant && e.name == name && e.pos == pos
    ensures e.energy == PlantEnergy && IsAlive(e)
  {
    Entity(name, Plant, PlantEnergy, pos)
  }

  /** `Erbivor(nume, pozitie)`. */
  function NewHerbivore(name: string, pos: Pos): (e: Entity)
    ensures e.kind == Herbivore && e.name == name && e.pos == pos
    ensures e.energy == HerbivoreEnergy && IsAlive(e)
  {
    Entity(name, Herbivore, HerbivoreEnergy, pos)
  }

  /** `Carnivor(nume, pozitie)`. */
  function NewCarnivore(name: string, pos: Pos): (e: Entity)
    ensures e.kind == Carnivore && e.name == name && e.pos == pos
    ensures e.energy == CarnivoreEnergy && IsAlive(e)
  {
    Entity(name, Carnivore, CarnivoreEnergy, pos)
  }

  // Acting ------------------------------------------------------------------

  /** `actioneaza`: a plant grows; herbivores and carnivores define no action
      of their own, so for them acting changes nothing. */
  function Act(e: Entity): (r: Entity)
    ensures r.kind == e.kind && r.name == e.name && r.pos == e.pos
    ensures e.kind == Plant ==> r.energy == e.energy + Growth
    ensures e.kind.IsAnimal() ==> r == e
  {
    if e.kind == Plant then e.(energy := e.energy + Growth) else e
  }

  // Movement ----------------------------------------------------------------

  /** C++'s `a % 10` on `int`: division truncates toward zero, so the
      remainder takes the sign of the dividend (Dafny's `%` never goes
      negative). */
  function WrapGrid(a: int): (r: int)
    ensures -Grid < r < Grid
    ensures a >= 0 ==> r >= 0
    ensures a <= 0 ==> r <= 0
    ensures (a - r) % Grid == 0
  {
    if a >= 0 then a % Grid
    else
      var q := (-a) / Grid;
      assert -a == q * Grid + (-a) % Grid;
      assert a + (-a) % Grid == -q * Grid;
      -((-a) % Grid)
  }

  /** One coordinate after a move: shifted by the draw reduced modulo the
      speed and re-centred by half the speed, then wrapped onto the grid. */
  function Shifted(c: int, draw: nat, speed: nat): (r: int)
    requires speed > 0
    ensures c >= speed / 2 - Grid ==> 0 <= r < Grid
    ensures c < speed / 2 - Grid - speed ==> r <= 0
  {
    WrapGrid(c + draw % speed - speed / 2 + Grid)
  }

  /** `Animal::deplaseaza`: each coordinate moves independently. */
  function Moved(e: Entity, d: Draw): (r: Entity)
    requires e.kind.IsAnimal()
    ensures r.kind == e.kind && r.name == e.name && r.energy == e.energy
    ensures InGrid(e.pos) ==> InGrid(r.pos)
  {
    var v := Speed(e.kind);
    e.(pos := Pos(Shifted(e.pos.x, d.dx, v), Shifted(e.pos.y, d.dy, v)))
  }

  /** On the grid, a move is a displacement by an offset in
      [-speed/2, speed - 1 - speed/2] on each axis, taken modulo the grid. */
  lemma MoveIsWrappedOffset(e: Entity, d: Draw)
    requires e.kind.IsAnimal() && InGrid(e.pos)
    ensures var v := Speed(e.kind);
            var ox, oy := d.dx % v - v / 2, d.dy % v - v / 2;
            && -(v / 2) <= ox <= v - 1 - v / 2
            && -(v / 2) <= oy <= v - 1 - v / 2
            && Moved(e, d).pos == Pos((e.pos.x + ox) % Grid, (e.pos.y + oy) % Grid)
  {
    var v := Speed(e.kind);
    WrapOnGrid(e.pos.x, d.dx % v - v / 2);
    WrapOnGrid(e.pos.y, d.dy % v - v / 2);
  }

  /** Wrapping an on-grid coordinate shifted by less than the grid side. */
  lemma WrapOnGrid(c: int, o: int)
    requires 0 <= c < Grid && -Grid < o < Grid
    ensures WrapGrid(c + o + Grid) == (c + o) % Grid
  {
    if c + o < 0 {
      assert (c + o) % Grid == c + o + Grid;
    } else if c + o < Grid {
      assert (c + o + Grid) % Grid == c + o;
    } else {
      assert (c + o + Grid) % Grid == c + o - Grid;
      assert (c + o) % Grid == c + o - Grid;
    }
  }

  /** A herbivore's offset `draw % 2 - 1` is -1 or 0, so on the grid it
      either stays put or steps one cell toward lower coordinates (wrapping
      from 0 to 9) on each axis; it never steps toward higher ones. */
  lemma HerbivoreStaysOrStepsDown(e: Entity, d: Draw)
    requires e.kind == Herbivore && InGrid(e.pos)
    ensures Moved(e, d).pos.x in {e.pos.x, (e.pos.x + Grid - 1) % Grid}
    ensures Moved(e, d).pos.y in {e.pos.y, (e.pos.y + Grid - 1) % Grid}
    ensures Moved(e, d).pos.x == e.pos.x <==> d.dx % 2 == 1
    ensures Moved(e, d).pos.y == e.pos.y <==> d.dy % 2 == 1
  {
    MoveIsWrappedOffset(e, d);
  }

  // Reproduction ------------------------------------------------------------

  /** `Planta::reproduce`, for the plant standing at index `i` of the
      population it reproduces into. With energy above the threshold the
      plant pays the cost and exactly one new plant, with the initial plant
      energy and a position on the grid drawn from `d`, is appended at the
      end; otherwise nothing changes. */
  method Reproduce(population: seq<Entity>, i: nat, d: Draw) returns (result: seq<Entity>)
    requires i < |population| && population[i].kind == Plant
    ensures population[i].energy > ReproductionThreshold ==>
              && |result| == |population| + 1
              && result[..|population|] == population[i := population[i].(energy := population[i].energy - ReproductionCost)]
              && result[i].energy > ReproductionThreshold - ReproductionCost
              && var child := result[|population|];
                 child == NewPlant(OffspringName, Pos(d.dx % Grid, d.dy % Grid)) && InGrid(child.pos)
    ensures population[i].energy <= ReproductionThreshold ==> result == population
  {
    result := population;
    var plant := population[i];
    if plant.energy > ReproductionThreshold {
      result := result[i := plant.(energy := plant.energy - ReproductionCost)];
      result := result + [NewPlant(OffspringName, Pos(d.dx % Grid, d.dy % Grid))];
    }
  }
}
