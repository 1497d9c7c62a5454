// The chicken-cave game object: a registry of entity sets keyed by role
// ("all", "draw", "update", "blocker", "wall", "particle") and the elapsed
// game time.

module ChickenGame {

  const All := "all"

  /** The registry names the game creates. */
  const Roles: set<string> := {"all", "draw", "update", "blocker", "wall", "particle"}

  /** The longest step `update` passes on. */
  const MaxStep: real := 0.02

  /** `addObject` on the registry: the object joins "all" and every named
      registry its types mention; types that are not one of the six
      registries (such as "player") are ignored. */
  function Added<T>(reg: map<string, set<T>>, o: T, types: seq<string>): (r: map<string, set<T>>)
    ensures r.Keys == reg.Keys
    ensures forall k :: k in reg ==> r[k] == if k == All || k in types then reg[k] + {o} else reg[k]
  {
    map k | k in reg :: if k == All || k in types then reg[k] + {o} else reg[k]
  }

  /** `deleteObject` on the registry: the object leaves "all" and every
      named registry its types mention. */
  function Removed<T>(reg: map<string, set<T>>, o: T, types: seq<string>): (r: map<string, set<T>>)
    ensures r.Keys == reg.Keys
    ensures forall k :: k in reg ==> r[k] == if k == All || k in types then reg[k] - {o} else reg[k]
  {
    map k | k in reg :: if k == All || k in types then reg[k] - {o} else reg[k]
  }

  /** Adding an object no registry holds and then deleting it leaves every
      registry as it was. */
  lemma AddThenRemove<T>(reg: map<string, set<T>>, o: T, types: seq<string>)
    requires forall k :: k in reg ==> o !in reg[k]
    ensures Removed(Added(reg, o, types), o, types) == reg
  {
    var r := Removed(Added(reg, o, types), o, types);
    assert forall k :: k in reg ==> r[k] == reg[k];
  }

  /** After adding, the object is in "all" and in the registry of each of
      its types that has one, and in no other registry it was not already
      in. */
  lemma AddedMembership<T>(reg: map<string, set<T>>, o: T, types: seq<string>, k: string)
    requires k in reg
    ensures o in Added(reg, o, types)[k] <==> k == All || k in types || o in reg[k]
  {
  }

  /** After deleting, the object is in none of "all" and its types'
      registries. */
  lemma RemovedMembership<T>(reg: map<string, set<T>>, o: T, types: seq<string>, k: string)
    requires k in reg && (k == All || k in types)
    ensures o !in Removed(reg, o, types)[k]
  {
  }

  /** The step `update` passes on: `dT` capped at `MaxStep`. */
  function Capped(dT: real): (r: real)
    requires dT > 0.0
    ensures 0.0 < r <= MaxStep && r <= dT
    ensures r == dT || (dT > MaxStep && r == MaxStep)
  {
    if dT > MaxStep then MaxStep else dT
  }

  /** The registry loop of `addObject` (`add`) and `deleteObject` (not
      `add`): "all" first, then each type that names a registry. */
  method Register<T>(reg: map<string, set<T>>, o: T, types: seq<string>, add: bool)
    returns (r: map<string, set<T>>)
    requires All in reg
    ensures r == if add then Added(reg, o, types) else Removed(reg, o, types)
  {
    r := reg[All := if add then reg[All] + {o} else reg[All] - {o}];
    var i := 0;
    while i < |types|
      invariant 0 <= i <= |types| && r.Keys == reg.Keys
      invariant forall k :: k in reg ==>
                  r[k] == if k == All || k in types[..i] then (if add then reg[k] + {o} else reg[k] - {o})
                          else reg[k]
    {
      var t := types[i];
      if t in r {
        r := r[t := if add then r[t] + {o} else r[t] - {o}];
      }
      assert types[..i + 1] == types[..i] + [t];
      i := i + 1;
    }
    assert types[..i] == types;
  }

  /** A call the game makes into an entity's own code (`init` or
      `destroy`), with what the entity can observe at that moment: whether
      it is wired to the game, and whether the "all" registry holds it. */
  datatype Call = InitCall(obj: Entity, wired: bool, registered: bool)
                | DestroyCall(obj: Entity, wired: bool, registered: bool)

  /** An entity: its role names, and the game it has been wired to (the
      entity, keyboard, graphics and sound references all hang off it). */
  class Entity {
    const types: seq<string>
    var game: Game?

    constructor (types: seq<string>)
      ensures this.types == types && game == null
    {
      this.types := types;
      game := null;
    }
  }

  class Game {
    var entities: map<string, set<Entity>>
    var eT: real

    predicate Valid()
      reads this
    {
      entities.Keys == Roles
    }

    constructor ()
      ensures Valid() && eT == 0.0
      ensures forall k :: k in entities ==> entities[k] == {}
    {
      entities := map k | k in Roles :: {};
      eT := 0.0;
    }

    /** `addObject`: wires the object to this game, registers it, and only
        then calls its `init`, which `call` records: `init` always finds
        the object wired and registered. */
    method AddObject(obj: Entity) returns (call: Call)
      requires Valid()
      modifies this, obj
      ensures Valid() && entities == Added(old(entities), obj, obj.types)
      ensures obj.game == this && eT == old(eT)
      ensures call == InitCall(obj, true, true)
    {
      obj.game := this;
      entities := Register(entities, obj, obj.types, true);
      call := InitCall(obj, obj.game == this, obj in entities[All]);
    }

    /** `deleteObject`: first calls the object's `destroy`, which `call`
        records and which still sees the object as it was, then unwires
        it and removes it. */
    method DeleteObject(obj: Entity) returns (call: Call)
      requires Valid()
      modifies this, obj
      ensures Valid() && entities == Removed(old(entities), obj, obj.types)
      ensures obj.game == null && eT == old(eT)
      ensures call == DestroyCall(obj, old(obj.game) == this, obj in old(entities)[All])
    {
      call := DestroyCall(obj, obj.game == this, obj in entities[All]);
      obj.game := null;
      entities := Register(entities, obj, obj.types, false);
    }

    /** `update`: nothing for a step that is not positive; otherwise the
        capped step is added to the elapsed time, and `calls` records the
        `(entity, dT, eT)` each member of the "update" registry is
        updated with. */
    method Update(dT: real) returns (calls: set<(Entity, real, real)>)
      requires Valid()
      modifies this
      ensures Valid() && entities == old(entities)
      ensures dT <= 0.0 ==> eT == old(eT) && calls == {}
      ensures dT > 0.0 ==> eT == old(eT) + Capped(dT) &&
                           calls == set o | o in entities["update"] :: (o, Capped(dT), eT)
    {
      calls := {};
      if dT <= 0.0 {
        return;
      }
      var step := dT;
      if step > MaxStep {
        step := MaxStep;
      }
      eT := eT + step;
      var rest := entities["update"];
      while rest != {}
        invariant rest <= entities["update"]
        invariant calls == set o | o in entities["update"] - rest :: (o, step, eT)
        decreases |rest|
      {
        var o :| o in rest;
        calls := calls + {(o, step, eT)};
        rest := rest - {o};
      }
    }
  }
}
