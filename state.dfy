/**
 * The turtle-state stack of src/renderer/src/state.ts: a collection whose
 * first entry is the current state and whose later entries are saved ones.
 * `save` and `restore` change the JavaScript array in place, so the
 * collection is an object whose `states` field they reassign.
 */
module TurtleState {

  datatype Option<T> = None | Some(value: T)

  /** A three.js `Vector3`: a mutable object, so that a clone is a separate object. */
  class Vector3 {
    var x: real
    var y: real
    var z: real

    constructor (x: real, y: real, z: real)
      ensures this.x == x && this.y == y && this.z == z
    {
      this.x, this.y, this.z := x, y, z;
    }

    /** `clone()`: a new vector with the same coordinates. */
    method Clone() returns (v: Vector3)
      ensures fresh(v)
      ensures v.x == x && v.y == y && v.z == z
    {
      v := new Vector3(x, y, z);
    }
  }

  /** Two vectors with the same coordinates, whether or not they are the same object. */
  predicate SameVector(a: Vector3, b: Vector3)
    reads a, b
  {
    a.x == b.x && a.y == b.y && a.z == b.z
  }

  /** A `State`: references to two vectors and three numbers. */
  datatype State = State(position: Vector3, direction: Vector3, length: real, radius: real, angle: real)

  /** Value equality of two states: the same coordinates and the same numbers. */
  predicate SameState(a: State, b: State)
    reads a.position, a.direction, b.position, b.direction
  {
    SameVector(a.position, b.position) && SameVector(a.direction, b.direction)
    && a.length == b.length && a.radius == b.radius && a.angle == b.angle
  }

  /**
   * `clone(state)`: copies all five fields, with new position and direction
   * objects, so a change to the copy's vectors cannot reach the original's.
   */
  method Clone(state: State) returns (copy: State)
    ensures fresh(copy.position) && fresh(copy.direction)
    ensures copy.position != copy.direction
    ensures SameState(copy, state)
  {
    var position := state.position.Clone();
    var direction := state.direction.Clone();
    copy := State(position, direction, state.length, state.radius, state.angle);
  }

  /** Moving a clone's position leaves the original state's vectors as they were. */
  method MoveClone(state: State, dx: real) returns (copy: State)
    ensures fresh(copy.position) && fresh(copy.direction)
    ensures copy.position.x == state.position.x + dx
    ensures unchanged(state.position, state.direction)
  {
    copy := Clone(state);
    copy.position.x := copy.position.x + dx;
  }

  /** A `StateCollection`: a non-empty array, the current state first. */
  class StateCollection {
    var states: seq<State>

    /** The tuple type `[State, ...State[]]` admits no empty collection. */
    ghost predicate Valid()
      reads this
    {
      |states| >= 1
    }

    constructor (initial: State)
      ensures Valid()
      ensures states == [initial]
    {
      states := [initial];
    }

    /** `currentState(states)`: the current state is the first entry. */
    function CurrentState(): (current: State)
      requires Valid()
      reads this
      ensures current == states[0]
    {
      states[0]
    }

    /**
     * `save(states)`: appends a copy of the current state, made of fresh
     * vectors; the entries already there are untouched.
     */
    method Save()
      requires Valid()
      modifies this
      ensures Valid()
      ensures |states| == |old(states)| + 1
      ensures states[..|old(states)|] == old(states)
      ensures fresh(states[|states| - 1].position) && fresh(states[|states| - 1].direction)
      ensures SameState(states[|states| - 1], old(states)[0])
    {
      var current := Clone(CurrentState());
      states := states + [current];
    }

    /**
     * `restore(states)`: with nothing saved it returns `null` and changes
     * nothing; otherwise it pops the last entry, makes it the current one
     * and returns it, keeping the entries in between.
     */
    method Restore() returns (restored: Option<State>)
      requires Valid()
      modifies this
      ensures Valid()
      ensures |old(states)| <= 1 ==> restored == None && states == old(states)
      ensures |old(states)| >= 2 ==>
        var n := |old(states)|;
        && restored == Some(old(states)[n - 1])
        && states == [old(states)[n - 1]] + old(states)[1..n - 1]
    {
      if |states| <= 1 {
        return None;
      }
      var n := |states|;
      var lifoState := states[n - 1];
      states := states[..n - 1];
      states := [lifoState] + states[1..];
      return Some(lifoState);
    }

    /**
     * A `save` followed by a `restore` gives back the original length and
     * leaves a current state of the same value, the saved entries unchanged,
     * and returns that state.
     */
    method SaveThenRestore() returns (restored: Option<State>)
      requires Valid()
      modifies this
      ensures Valid()
      ensures |states| == |old(states)|
      ensures states[1..] == old(states)[1..]
      ensures restored == Some(states[0])
      ensures SameState(states[0], old(states)[0])
    {
      Save();
      restored := Restore();
    }
  }
}
