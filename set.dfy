/** The example's set page (examples/multi_windows/src/pages/set.rs): a counter that its
    own `AddOne` message increments. */
module SetPage {
  import opened Core

  /** `Data::default()`. */
  function Default(): (d: PageData)
    ensures d.Set? && d.value == 0
  {
    Set(0)
  }

  /** `self.value += 1` on an `i32`, as a release build computes it (two's-complement
      wrap-around; a debug build panics instead). */
  function Increment(v: I32): (r: I32)
    ensures v < I32_MAX ==> r as int == v as int + 1
    ensures v == I32_MAX ==> r == I32_MIN
  {
    if v == I32_MAX then I32_MIN else v + 1
  }

  function SetSettings(): Settings
  {
    DefaultSettings().(size := Extent(400.0, 300.0), position := Centered, resizable := false, level := AlwaysOnTop)
  }

  /** `Data::new_window`: a window over a copy of the current counter. */
  function NewWindow(value: I32): (w: Window)
    ensures w.title == "Set Window" && w.data == Set(value) && w.settings == SetSettings()
    ensures w.parentId.None? && w.childId.None? && w.windowClosedCallback.None?
    ensures w.dataTypeId == EmptyWindowTag
  {
    DefaultWindow(Set(value)).(title := "Set Window", settings := SetSettings())
  }

  /** `Data::update`: the new counter value; the reply is always `Message::None`. */
  function Update(value: I32, msg: Payload): (r: I32)
    ensures msg.AddOne? ==> r == Increment(value)
    ensures !msg.AddOne? ==> r == value
  {
    if msg.AddOne? then Increment(value) else value
  }
}
