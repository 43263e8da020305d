/** Edge detection between two port statuses. */
module PortTriggers {
  import opened Types

  const TRIGGER_DISABLE: bv8 := 0x01
  const TRIGGER_SUSPEND: bv8 := 0x02
  const TRIGGER_RESUMING: bv8 := 0x04
  const TRIGGER_RESET: bv8 := 0x08
  const TRIGGER_POWER_ON: bv8 := 0x10
  const TRIGGER_POWER_OFF: bv8 := 0x20

  predicate TriggersPowerOn(flags: bv8) { flags & TRIGGER_POWER_ON != 0 }
  predicate TriggersPowerOff(flags: bv8) { flags & TRIGGER_POWER_OFF != 0 }

  /** The flags accumulated by the three-argument constructor of port_stat_work.
      Every flag is set exactly on its own edge. */
  function Triggers(stat: PortStat, prev: PortStat): (flags: bv8)
    ensures flags & TRIGGER_DISABLE != 0 <==> prev.Enable() && !stat.Enable()
    ensures flags & TRIGGER_SUSPEND != 0 <==> !prev.Suspend() && stat.Suspend()
    ensures flags & TRIGGER_RESUMING != 0 <==> !prev.Resuming() && stat.Resuming()
    ensures flags & TRIGGER_RESET != 0 <==> !prev.Reset() && stat.Reset()
    ensures TriggersPowerOn(flags) <==> !prev.Power() && stat.Power()
    ensures TriggersPowerOff(flags) <==> prev.Power() && !stat.Power()
    ensures flags & 0xC0 == 0
  {
    var f: bv8 := 0;
    var f := if !stat.Enable() && prev.Enable() then f | TRIGGER_DISABLE else f;
    var f := if stat.Suspend() && !prev.Suspend() then f | TRIGGER_SUSPEND else f;
    var f := if stat.Resuming() && !prev.Resuming() then f | TRIGGER_RESUMING else f;
    var f := if stat.Reset() && !prev.Reset() then f | TRIGGER_RESET else f;
    if stat.Power() && !prev.Power() then f | TRIGGER_POWER_ON
    else if !stat.Power() && prev.Power() then f | TRIGGER_POWER_OFF
    else f
  }

  /** The helper of the C interface, which tests the raw words and has no `else`.
      It raises the same flags as the C++ constructor on every pair of statuses. */
  method PortStatTriggers(stat: PortStat, prev: PortStat) returns (flags: bv8)
    ensures flags == Triggers(stat, prev)
  {
    flags := 0;
    if stat.status & STAT_ENABLE == 0 && prev.status & STAT_ENABLE != 0 { flags := flags | TRIGGER_DISABLE; }
    if stat.status & STAT_SUSPEND != 0 && prev.status & STAT_SUSPEND == 0 { flags := flags | TRIGGER_SUSPEND; }
    if stat.flags & FLAG_RESUMING != 0 && prev.flags & FLAG_RESUMING == 0 { flags := flags | TRIGGER_RESUMING; }
    if stat.status & STAT_RESET != 0 && prev.status & STAT_RESET == 0 { flags := flags | TRIGGER_RESET; }
    if stat.status & STAT_POWER != 0 && prev.status & STAT_POWER == 0 { flags := flags | TRIGGER_POWER_ON; }
    if stat.status & STAT_POWER == 0 && prev.status & STAT_POWER != 0 { flags := flags | TRIGGER_POWER_OFF; }
  }
}
