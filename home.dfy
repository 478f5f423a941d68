/** The example's main window (examples/multi_windows/src/pages/home.rs): a button that
    asks the engine to open the set page as its child, and a close request that ends the
    program. */
module HomePage {
  import opened Core
  import SetPage

  /** The home window's host settings. */
  function HomeSettings(): Settings
  {
    DefaultSettings().(minSize := Some(Extent(800.0, 400.0)), size := Extent(1024.0, 768.0),
                       position := Centered, resizable := true, exitOnCloseRequest := false)
  }

  /** `Data::new_window`. */
  function NewWindow(): (w: Window)
    ensures w.title == "Main Window" && w.data == Home && w.settings == HomeSettings()
    ensures w.parentId.None? && w.childId.None? && w.windowClosedCallback.None?
    ensures w.dataTypeId == EmptyWindowTag
  {
    DefaultWindow(Home).(title := "Main Window", settings := HomeSettings())
  }

  /** `Data::update`: its own `OpenSubWindow` asks to open a default set page as a child
      of this window; every other payload is ignored. The data has no fields, so it is
      never changed. */
  function Update(id: WindowId, msg: Payload): (r: Message)
    ensures msg.OpenSubWindow? ==>
      r.NewWindow? && r.request.parentId == Some(id) && r.request.data == SetPage.Default()
      && r.request.dataTypeId == SetTag && r.request.callback.None?
    ensures !msg.OpenSubWindow? ==> r.None?
  {
    if msg.OpenSubWindow? then NewWindowMsg(id, SetPage.Default()) else Message.None
  }

  /** `Data::on_close_request`: closing the main window exits at once. */
  function OnCloseRequest(id: WindowId): (r: Message)
    ensures r.Exit?
  {
    Message.Exit
  }
}
