// The heap frame of a container whose end event has not come yet (yaml_frame.rs).

module YamlFrames {
  import opened Common
  import opened Pointers
  import opened YamlValues
  import opened YamlMachine
  import opened YamlPositions

  /** A key, its location, and the slot awaiting its value. */
  datatype HeldKey = HeldKey(name: string, at: Location, slot: Option<nat>)

  datatype Held = HeldElements(values: seq<Value>) | HeldMapping(members: seq<Member>, key: Option<HeldKey>)

  ghost predicate InSlots(slot: Option<nat>, count: nat) {
    slot.Some? ==> slot.value < count
  }

  ghost function PathOf(slot: Option<nat>, paths: seq<Path>): Option<Path>
    requires InSlots(slot, |paths|)
  {
    if slot.None? then None else Some(paths[slot.value])
  }

  class OpenFrame {
    var container: Held
    const slot: Option<nat>
    const anchor: nat
    const start: Location

    constructor (sequence: bool, slot: Option<nat>, anchor: nat, start: Location)
      ensures this.slot == slot && this.anchor == anchor && this.start == start
      ensures container == if sequence then HeldElements([]) else HeldMapping([], None)
    {
      container := if sequence then HeldElements([]) else HeldMapping([], None);
      this.slot := slot;
      this.anchor := anchor;
      this.start := start;
    }

    ghost predicate Fits(count: nat)
      reads this
    {
      InSlots(slot, count) &&
      (container.HeldMapping? && container.key.Some? ==> InSlots(container.key.value.slot, count))
    }

    /** The frame with its slots named by their paths. */
    ghost function View(paths: seq<Path>): Frame
      reads this
      requires Fits(|paths|)
    {
      var content :=
        match container
        case HeldElements(values) => Elements(values)
        case HeldMapping(members, None) => Mapping(members, None)
        case HeldMapping(members, Some(key)) =>
          Mapping(members, Some(Pending(key.name, key.at, PathOf(key.slot, paths))));
      Frame(content, PathOf(slot, paths), anchor, start)
    }

    /** Where the next child is located: an item's or the waiting key's slot. Keys have none. */
    method Child(positions: Positions) returns (child: Option<nat>)
      requires positions.Valid() && Fits(|positions.paths|)
      modifies positions
      ensures positions.Valid() && old(positions.paths) <= positions.paths
      ensures InSlots(child, |positions.paths|)
      ensures PathOf(child, positions.paths) == ChildSlot(View(old(positions.paths)))
      ensures positions.Places() == ChildPlaces(View(old(positions.paths)), old(positions.Places()))
    {
      hide IsTree;
      assert |positions.slots| == |positions.paths| by { positions.SameCount(); }
      match container
      case HeldElements(values) =>
        if slot.None? { return None; }
        var c := positions.Child(slot.value, Decimal(|values|));
        positions.SameCount();
        child := Some(c);
      case HeldMapping(_, key) =>
        child := if key.Some? then key.value.slot else None;
    }

    /** The container's own end event, and no key that waits for its value. */
    predicate Closed(event: Event)
      reads this
    {
      match container
      case HeldElements(_) => event.SequenceEnd?
      case HeldMapping(_, key) => event.MappingEnd? && key.None?
    }

    /** The content leaves the frame, which keeps an empty container of its kind. */
    method Take() returns (value: Value)
      modifies this
      ensures value ==
              if old(container).HeldElements? then Array(old(container).values) else Object(old(container).members)
      ensures container ==
              if old(container).HeldElements? then HeldElements([]) else HeldMapping([], old(container).key)
    {
      match container
      case HeldElements(values) =>
        value := Array(values);
        container := HeldElements([]);
      case HeldMapping(members, key) =>
        value := Object(members);
        container := HeldMapping([], key);
    }

    /** Add a completed child; a rejected key leaves the frame awaiting a key. */
    method Join(value: Value, at: Location, positions: Positions) returns (rejected: Option<Issue>)
      requires positions.Valid() && Fits(|positions.paths|)
      modifies this, positions
      ensures positions.Valid() && old(positions.paths) <= positions.paths && Fits(|positions.paths|)
      ensures match Attach(old(View(positions.paths)), value, at, old(positions.Places()))
              case Err(issue) => rejected == Some(issue)
              case Ok((frame, places)) =>
                rejected.None? && View(positions.paths) == frame && positions.Places() == places
    {
      hide IsTree;
      positions.SameCount();
      match container
      case HeldElements(values) =>
        container := HeldElements(values + [value]);
        return None;
      case HeldMapping(members, Some(key)) =>
        if key.slot.Some? {
          positions.Set(key.slot.value, key.at);
        }
        container := HeldMapping(members + [Member(key.name, value)], None);
        return None;
      case HeldMapping(members, None) =>
        if !(value.Leaf? && value.atom.Text?) {
          return Some(Issue(NotString, at));
        }
        var name := value.atom.s;
        if HasKey(members, name) {
          return Some(Issue(Duplicate(name), at));
        }
        var child: Option<nat> := None;
        if slot.Some? {
          var c := positions.Child(slot.value, Escape(name));
          positions.SameCount();
          child := Some(c);
        }
        container := HeldMapping(members, Some(HeldKey(name, at, child)));
        return None;
    }
  }
}
