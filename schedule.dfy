/** Bevy's `Schedules` resource, reduced to the systems held under each key. */
module Schedule {
  import opened Scripts

  datatype ScheduleLabel = PreUpdate | Update | PostUpdate

  /** A system in a schedule: one written in Rust, or one built for a script. */
  datatype System = Native(name: string) | Lua(unit: LuaUnit)

  class Schedules {
    var entries: map<ScheduleLabel, seq<System>>

    /** The systems under `key`, in insertion order; none if the key has no schedule yet. */
    function Systems(key: ScheduleLabel): (s: seq<System>)
      reads this
    {
      if key in entries then entries[key] else []
    }

    /** `entry(key).add_systems(system)`: creates the schedule if missing,
        then appends the system to it; every other schedule is untouched. */
    method AddSystem(key: ScheduleLabel, system: System)
      modifies this
      ensures entries == old(entries)[key := old(Systems(key)) + [system]]
      ensures Systems(key) == old(Systems(key)) + [system]
      ensures forall l :: l != key ==> Systems(l) == old(Systems(l))
    {
      entries := entries[key := Systems(key) + [system]];
    }
  }
}
