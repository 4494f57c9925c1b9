/** The `Debug` object of src/debug.ts: a global switch, the log ring
    buffer, and the HUD and toast elements, each held as its text content
    (None while the element has not been created). */
module DebugChannel {
  import opened Wrappers
  import opened LogBuffer
  import opened HudText

  class Debug {
    var enabled: bool
    var logs: seq<Entry>
    var hud: Option<string>
    var toast: Option<string>

    /** The buffer stays within capacity, and the HUD and the toast are
        created together. */
    ghost predicate Valid()
      reads this
    {
      |logs| <= Capacity && (hud.Some? <==> toast.Some?)
    }

    /** The object as first loaded, with the global switch given
        (`true` in the repository). */
    constructor (enabled: bool)
      ensures Valid()
      ensures this.enabled == enabled && logs == [] && hud == None && toast == None
    {
      this.enabled := enabled;
      logs := [];
      hud := None;
      toast := None;
    }

    /** `Debug.init`: creates the HUD and the toast, both empty, unless
        debugging is off or the HUD already exists. Afterwards a second
        call does nothing. */
    method Init()
      requires Valid()
      modifies this`hud, this`toast
      ensures Valid()
      ensures !old(enabled) || old(hud).Some? ==> hud == old(hud) && toast == old(toast)
      ensures old(enabled) && old(hud).None? ==> hud == Some("") && toast == Some("")
      ensures !enabled || hud.Some?
    {
      if !enabled { return; }
      if hud.Some? { return; }
      hud := Some("");
      toast := Some("");
    }

    /** `Debug.showToast`: sets the toast's text when the toast exists. */
    method ShowToast(text: string)
      requires Valid()
      modifies this`toast
      ensures Valid()
      ensures toast == if old(toast).Some? then Some(text) else old(toast)
    {
      if toast.None? { return; }
      toast := Some(text);
    }

    /** `Debug.log`: when enabled, pushes the entry `{ time, event, ...data }`
        and drops the oldest entry once the buffer holds more than
        `Capacity`; when disabled, leaves the buffer as it is. */
    method Log(time: real, event: string, data: map<string, Value>)
      requires Valid()
      modifies this`logs
      ensures Valid()
      ensures !enabled ==> logs == old(logs)
      ensures enabled ==> logs == Appended(old(logs), MakeEntry(time, event, data))
      ensures enabled ==> logs[|logs| - 1] == MakeEntry(time, event, data)
      ensures enabled && |old(logs)| < Capacity ==> logs == old(logs) + [MakeEntry(time, event, data)]
      ensures enabled && |old(logs)| == Capacity ==> logs == old(logs)[1..] + [MakeEntry(time, event, data)]
    {
      if !enabled { return; }
      var entry := MakeEntry(time, event, data);
      logs := logs + [entry];
      if |logs| > Capacity {
        logs := logs[1..];
      }
    }

    /** `Debug.updateHUD`: when enabled and the HUD exists, replaces its
        text with the rendered record; otherwise changes nothing. */
    method UpdateHud(values: seq<(string, Value)>, numText: real -> string)
      requires Valid()
      modifies this`hud
      ensures Valid()
      ensures !enabled || old(hud).None? ==> hud == old(hud)
      ensures enabled && old(hud).Some? ==> hud == Some(RenderHud(values, numText))
    {
      if !enabled || hud.None? { return; }
      hud := Some(RenderHud(values, numText));
    }
  }
}
