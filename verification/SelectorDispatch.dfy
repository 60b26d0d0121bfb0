/**
 The dispatch pass of the selector: a walk over the ordered set of devices with a cursor that
 device callbacks disturb by adding and removing devices, the visited one and its successor
 included.  A cursor into the set is the address it points at, or the end.
 */
module SelectorDispatch {

  /** Pointers are ordered by their 64 bit address. */
  const LIMIT: nat := 0x1_0000_0000_0000_0000
  type Address = a: nat | a < LIMIT

  datatype Cursor = End | At(dev: Address)

  datatype Registry = Registry(devices: set<Address>, current: Cursor)

  datatype Action = Add(dev: Address) | Remove(dev: Address)

  /** What the environment does when a device is visited: nothing if it is disabled. */
  datatype Visit =
    | Disabled
    | Checked(actions: seq<Action>, found: bool)
    | Threw(actions: seq<Action>)

  /** One turn of the walk, with the devices registered when it began. */
  datatype Turn = Turn(dev: Address, present: set<Address>, checked: bool)

  /** The first device at address `a` or above. */
  function NextFrom(devices: set<Address>, a: nat): Cursor
    requires a <= LIMIT
    decreases LIMIT - a
  {
    if a == LIMIT then End else if a in devices then At(a) else NextFrom(devices, a + 1)
  }

  lemma {:induction false} NextFromIsFirst(devices: set<Address>, a: nat)
    requires a <= LIMIT
    ensures var c := NextFrom(devices, a);
            && (c.At? ==> c.dev in devices && a <= c.dev)
            && forall y: Address :: y in devices && a <= y ==> c.At? && c.dev <= y
    decreases LIMIT - a
  {
    if a < LIMIT && a !in devices {
      NextFromIsFirst(devices, a + 1);
    }
  }

  function Added(r: Registry, d: Address): Registry {
    r.(devices := r.devices + {d})
  }

  function Removed(r: Registry, d: Address): Registry {
    if d !in r.devices then r
    else if r.current == At(d) then Registry(r.devices - {d}, NextFrom(r.devices, d + 1))
    else r.(devices := r.devices - {d})
  }

  function Applied(r: Registry, a: Action): Registry {
    match a case Add(d) => Added(r, d) case Remove(d) => Removed(r, d)
  }

  function AppliedAll(r: Registry, actions: seq<Action>): Registry
    decreases |actions|
  {
    if actions == [] then r else AppliedAll(Applied(r, actions[0]), actions[1..])
  }

  function Actions(v: Visit): seq<Action> {
    if v.Disabled? then [] else v.actions
  }

  /** The cursor moves on by itself only if it still points at the visited device. */
  function Advanced(r: Registry, dev: Address): Registry {
    if r.current == At(dev) then r.(current := NextFrom(r.devices, dev + 1)) else r
  }

  /** The cursor points into the set, not before `low`. */
  predicate Sound(r: Registry, low: nat) {
    r.current.At? ==> r.current.dev in r.devices && low <= r.current.dev
  }

  /** The walk has not yet passed `y`, which is registered. */
  predicate Ahead(r: Registry, y: Address) {
    y in r.devices && r.current.At? && r.current.dev <= y
  }

  lemma ActionKeeps(r: Registry, low: nat, a: Action)
    requires Sound(r, low)
    ensures Sound(Applied(r, a), low)
    ensures forall y :: Ahead(r, y) && a != Remove(y) ==> Ahead(Applied(r, a), y)
    ensures forall y :: y in r.devices && a != Remove(y) ==> y in Applied(r, a).devices
  {
    if a.Remove? {
      NextFromIsFirst(r.devices, a.dev + 1);
    }
  }

  lemma {:induction false} ActionsKeep(r: Registry, low: nat, actions: seq<Action>)
    requires Sound(r, low)
    ensures Sound(AppliedAll(r, actions), low)
    ensures forall y :: Ahead(r, y) && Remove(y) !in actions ==> Ahead(AppliedAll(r, actions), y)
    decreases |actions|
  {
    if actions != [] {
      ActionKeeps(r, low, actions[0]);
      ActionsKeep(Applied(r, actions[0]), low, actions[1..]);
    }
  }

  /** After a turn the cursor is past the visited device, but not past any device that stays. */
  lemma TurnKeeps(r: Registry, actions: seq<Action>)
    requires Sound(r, 0) && r.current.At?
    ensures var dev: Address := r.current.dev; var r' := Advanced(AppliedAll(r, actions), dev);
            && Sound(r', dev + 1)
            && forall y :: Ahead(r, y) && y != dev && Remove(y) !in actions ==> Ahead(r', y)
  {
    var dev: Address := r.current.dev;
    ActionsKeep(r, dev, actions);
    NextFromIsFirst(AppliedAll(r, actions).devices, dev + 1);
  }

  function Lowest(c: Cursor): nat {
    if c.At? then c.dev else LIMIT
  }

  /** The turns of one pass; the k-th turn of the pass behaves as `env(k)` says. */
  function Pass(r: Registry, env: nat -> Visit, k: nat): seq<Turn>
    requires Sound(r, 0)
    decreases LIMIT - Lowest(r.current)
  {
    if r.current == End then []
    else
      var dev: Address := r.current.dev;
      var v := env(k);
      var turn := Turn(dev, r.devices, !v.Disabled?);
      if v.Threw? then [turn]
      else
        TurnKeeps(r, Actions(v));
        [turn] + Pass(Advanced(AppliedAll(r, Actions(v)), dev), env, k + 1)
  }

  function After(r: Registry, env: nat -> Visit, k: nat): Registry
    requires Sound(r, 0)
    decreases LIMIT - Lowest(r.current)
  {
    if r.current == End then r
    else
      var v := env(k);
      if v.Threw? then AppliedAll(r, v.actions).(current := End)
      else
        TurnKeeps(r, Actions(v));
        After(Advanced(AppliedAll(r, Actions(v)), r.current.dev), env, k + 1)
  }

  lemma PassAtEnd(r: Registry, env: nat -> Visit, k: nat)
    requires r.current == End
    ensures Pass(r, env, k) == [] && After(r, env, k) == r
  {
  }

  /** One turn at a time. */
  lemma PassUnfolds(r: Registry, env: nat -> Visit, k: nat)
    requires Sound(r, 0) && r.current.At?
    ensures var dev: Address := r.current.dev;
            var v := env(k);
            var turn := Turn(dev, r.devices, !v.Disabled?);
            var r' := Advanced(AppliedAll(r, Actions(v)), dev);
            if v.Threw? then Pass(r, env, k) == [turn] && After(r, env, k) == AppliedAll(r, v.actions).(current := End)
            else Sound(r', dev + 1) && Pass(r, env, k) == [turn] + Pass(r', env, k + 1)
                 && After(r, env, k) == After(r', env, k + 1)
  {
    TurnKeeps(r, Actions(env(k)));
  }

  predicate Found(env: nat -> Visit, n: nat) {
    exists i :: 0 <= i < n && env(i).Checked? && env(i).found
  }

  predicate SomeThrew(env: nat -> Visit, k: nat, n: nat) {
    exists i :: k <= i < k + n && env(i).Threw?
  }

  /** Every turn of a pass visits a device of the set, in strictly increasing order. */
  lemma {:induction false} TurnsIncrease(r: Registry, env: nat -> Visit, k: nat)
    requires Sound(r, 0)
    ensures var turns := Pass(r, env, k);
            && (forall i :: 0 <= i < |turns| ==> turns[i].dev in turns[i].present && turns[i].dev >= Lowest(r.current))
            && (forall i, j :: 0 <= i < j < |turns| ==> turns[i].dev < turns[j].dev)
    decreases LIMIT - Lowest(r.current)
  {
    if r.current == End {
      PassAtEnd(r, env, k);
    } else {
      PassUnfolds(r, env, k);
    }
    if r.current.At? && !env(k).Threw? {
      var r' := Advanced(AppliedAll(r, Actions(env(k))), r.current.dev);
      TurnsIncrease(r', env, k + 1);
      var turns := Pass(r, env, k);
      assert turns[1..] == Pass(r', env, k + 1);
      assert forall i :: 1 <= i < |turns| ==> turns[i] == turns[1..][i - 1];
    }
  }

  /** No callback of turns k, k + 1, ... k + n - 1 removes `y`. */
  predicate Stays(env: nat -> Visit, k: nat, n: nat, y: Address) {
    forall i :: k <= i < k + n ==> Remove(y) !in Actions(env(i))
  }

  /**
   From any point of a pass: a device the cursor has not passed and that nobody removes is
   visited, in a turn where it counts as checked unless it was disabled.
   */
  lemma {:induction false} AheadIsVisited(r: Registry, env: nat -> Visit, k: nat, y: Address) returns (i: nat)
    requires Sound(r, 0) && Ahead(r, y)
    requires Stays(env, k, |Pass(r, env, k)|, y) && !SomeThrew(env, k, |Pass(r, env, k)|)
    ensures i < |Pass(r, env, k)| && Pass(r, env, k)[i].dev == y
    ensures Pass(r, env, k)[i].checked <==> !env(k + i).Disabled?
    decreases LIMIT - Lowest(r.current)
  {
    var turns := Pass(r, env, k);
    assert k <= k < k + |turns|;
    TurnKeeps(r, Actions(env(k)));
    var dev: Address := r.current.dev;
    if dev == y {
      i := 0;
    } else {
      var r' := Advanced(AppliedAll(r, Actions(env(k))), dev);
      assert turns[1..] == Pass(r', env, k + 1);
      var j := AheadIsVisited(r', env, k + 1, y);
      i := j + 1;
      assert turns[i] == turns[1..][j];
    }
  }

  /** The registry at the start of a pass. */
  function Begun(devices: set<Address>): (r: Registry)
    ensures Sound(r, 0)
  {
    NextFromIsFirst(devices, 0);
    Registry(devices, NextFrom(devices, 0))
  }

  /**
   One pass without exceptions, whatever the callbacks add or remove: every turn is on a
   device in the set, devices strictly increase, and a device present throughout has one turn,
   in which it is checked exactly if it is enabled then.
   */
  lemma EveryStayingDeviceCheckedOnce(devices: set<Address>, env: nat -> Visit, y: Address)
    ensures var turns := Pass(Begun(devices), env, 0);
            && (forall i :: 0 <= i < |turns| ==> turns[i].dev in turns[i].present)
            && (forall i, j :: 0 <= i < j < |turns| ==> turns[i].dev < turns[j].dev)
            && ((y in devices && Stays(env, 0, |turns|, y) && !SomeThrew(env, 0, |turns|))
                ==> exists i :: 0 <= i < |turns| && turns[i].dev == y && (turns[i].checked <==> !env(i).Disabled?)
                                && forall j :: 0 <= j < |turns| && turns[j].dev == y ==> j == i)
  {
    var r := Begun(devices);
    var turns := Pass(r, env, 0);
    TurnsIncrease(r, env, 0);
    NextFromIsFirst(devices, 0);
    if y in devices && Stays(env, 0, |turns|, y) && !SomeThrew(env, 0, |turns|) {
      var i := AheadIsVisited(r, env, 0, y);
      assert turns[i].dev == y && (turns[i].checked <==> !env(i).Disabled?);
      forall j | 0 <= j < |turns| && turns[j].dev == y
        ensures j == i
      {
        assert !(i < j) && !(j < i);
      }
    }
  }

  /** A pass ends with the cursor at the end, also when a callback throws. */
  lemma {:induction false} PassEndsAtEnd(r: Registry, env: nat -> Visit, k: nat)
    requires Sound(r, 0)
    ensures After(r, env, k).current == End
    decreases LIMIT - Lowest(r.current)
  {
    if r.current.At? && !env(k).Threw? {
      TurnKeeps(r, Actions(env(k)));
      PassEndsAtEnd(Advanced(AppliedAll(r, Actions(env(k))), r.current.dev), env, k + 1);
    }
  }

  class SelectorImpl {
    var devices: set<Address>
    var current: Cursor
    var isDirty: bool

    ghost function Model(): Registry
      reads this
    {
      Registry(devices, current)
    }

    ghost predicate Valid()
      reads this
    {
      Sound(Model(), 0)
    }

    constructor ()
      ensures Valid() && Model() == Registry({}, End)
    {
      devices, current, isDirty := {}, End, true;
    }

    method AddDevice(d: Address)
      requires Valid()
      modifies this
      ensures Valid() && Model() == Added(old(Model()), d) && isDirty
    {
      devices := devices + {d};
      isDirty := true;
    }

    /** Erasing the device under the cursor moves the cursor to its successor first. */
    method RemoveDevice(d: Address)
      requires Valid()
      modifies this
      ensures Valid() && Model() == Removed(old(Model()), d)
      ensures isDirty == (old(isDirty) || d in old(devices))
    {
      ActionKeeps(Model(), 0, Remove(d));
      if d !in devices {
        return;
      }
      if current == End {
        devices := devices - {d};
      } else if current.dev == d {
        current := NextFrom(devices, d + 1);
        devices := devices - {d};
      } else {
        devices := devices - {d};
      }
      isDirty := true;
    }

    /** A callback: any number of additions and removals. */
    method RunCallback(actions: seq<Action>)
      requires Valid()
      modifies this
      ensures Valid() && Model() == AppliedAll(old(Model()), actions)
    {
      var i := 0;
      while i < |actions|
        invariant 0 <= i <= |actions|
        invariant Valid()
        invariant AppliedAll(Model(), actions[i..]) == AppliedAll(old(Model()), actions)
      {
        assert actions[i..][1..] == actions[i + 1..];
        match actions[i] {
          case Add(d) => AddDevice(d);
          case Remove(d) => RemoveDevice(d);
        }
        i := i + 1;
      }
    }

    /** The dispatch loop; `avail` tells whether some check found an event. */
    method Dispatch(env: nat -> Visit) returns (turns: seq<Turn>, avail: bool, threw: bool)
      requires Valid()
      modifies this
      ensures Valid() && turns == Pass(Begun(old(devices)), env, 0)
      ensures Model() == After(Begun(old(devices)), env, 0) && current == End
      ensures threw <==> SomeThrew(env, 0, |turns|)
      ensures !threw ==> avail == Found(env, |turns|)
    {
      hide NextFrom, Pass, After;
      turns, avail, threw := [], false, false;
      ghost var start := Begun(devices);
      NextFromIsFirst(devices, 0);
      PassEndsAtEnd(start, env, 0);
      current := NextFrom(devices, 0);
      while current != End
        invariant Valid()
        invariant turns + Pass(Model(), env, |turns|) == Pass(start, env, 0)
        invariant After(Model(), env, |turns|) == After(start, env, 0)
        invariant !SomeThrew(env, 0, |turns|)
        invariant avail == Found(env, |turns|)
        decreases LIMIT - Lowest(current)
      {
        var dev: Address := current.dev;
        var v := env(|turns|);
        ghost var before := Model();
        ghost var k := |turns|;
        PassUnfolds(before, env, k);
        turns := turns + [Turn(dev, devices, !v.Disabled?)];
        match v {
          case Disabled =>
          case Checked(actions, found) =>
            RunCallback(actions);
            avail := avail || found;
          case Threw(actions) =>
            RunCallback(actions);
            current := End;
            threw := true;
            return;
        }
        if current != End {
          if current.dev == dev {
            current := NextFrom(devices, dev + 1);
          }
        }
        assert Model() == Advanced(AppliedAll(before, Actions(v)), dev);
      }
      PassAtEnd(Model(), env, |turns|);
    }
  }
}
