/** The `IWindow` behaviour of each window kind: the dynamic dispatch of the trait
    object, written as a match over the closed union. Hooks a kind does not override
    are the defaults of src/core.rs. */
module Pages {
  import opened Core
  import HomePage
  import SetPage
  import MessageBoxDialog

  /** What `update(&mut self, id, msg)` leaves behind: the window's new data and the
      message it answers with. */
  datatype Reply = Reply(data: PageData, msg: Message)

  /** `new_window(&self)`. */
  function NewWindowOf(d: PageData): Window
  {
    match d
    case Home => HomePage.NewWindow()
    case Set(v) => SetPage.NewWindow(v)
    case MessageBox(b) => MessageBoxDialog.NewWindow(b)
  }

  /** `update(&mut self, id, msg)`. */
  function Update(d: PageData, id: WindowId, msg: Payload): (r: Reply)
    ensures TypeIdOf(r.data) == TypeIdOf(d)
  {
    match d
    case Home => Reply(Home, HomePage.Update(id, msg))
    case Set(v) => Reply(Set(SetPage.Update(v, msg)), Message.None)
    case MessageBox(_) => Reply(d, DefaultUpdate(id, msg))
  }

  function OnOpened(d: PageData, id: WindowId, position: Option<Point>, size: Extent): Message
  {
    DefaultOnOpened(id, position, size)
  }

  function OnWindowClosed(d: PageData, id: WindowId, result: DialogResult): Message
  {
    DefaultOnWindowClosed(id, result)
  }

  function OnCloseRequest(d: PageData, id: WindowId): Message
  {
    match d
    case Home => HomePage.OnCloseRequest(id)
    case _ => DefaultOnCloseRequest(id)
  }

  function OnFocus(d: PageData, id: WindowId): Message { DefaultOnFocus(id) }
  function OnUnfocus(d: PageData, id: WindowId): Message { DefaultOnUnfocus(id) }
  function OnMoved(d: PageData, id: WindowId, x: real, y: real): Message { DefaultOnMoved(id, x, y) }
  function OnResized(d: PageData, id: WindowId, width: real, height: real): Message { DefaultOnResized(id, width, height) }

  /** Every kind's window record leaves the `Window::default` fields alone: no parent, no
      child, no callback, and the placeholder tag; it carries a copy of the data. */
  lemma NewWindowLeavesDefaults(d: PageData)
    ensures NewWindowOf(d).parentId.None? && NewWindowOf(d).childId.None?
    ensures NewWindowOf(d).windowClosedCallback.None?
    ensures NewWindowOf(d).dataTypeId == EmptyWindowTag
    ensures NewWindowOf(d).data == d
  {
  }

  /** No kind overrides the notification hooks: each answers `Message::None`. */
  lemma NotificationHooksReturnNone(d: PageData, id: WindowId, position: Option<Point>, size: Extent,
                                    result: DialogResult, x: real, y: real)
    ensures OnOpened(d, id, position, size).None? && OnWindowClosed(d, id, result).None?
    ensures OnFocus(d, id).None? && OnUnfocus(d, id).None?
    ensures OnMoved(d, id, x, y).None? && OnResized(d, id, x, y).None?
  {
  }

  /** The home page exits on a close request; the other kinds keep the default, which
      asks to close the window with `DialogResult::None`. */
  lemma CloseRequestAnswers(d: PageData, id: WindowId)
    ensures d.Home? ==> OnCloseRequest(d, id).Exit?
    ensures !d.Home? ==> OnCloseRequest(d, id) == Event(Close(id, DialogResult.None))
  {
  }

  /** A window ignores payloads that are not its own: its data and reply stay as they are. */
  lemma UpdateIgnoresForeignPayloads(d: PageData, id: WindowId, msg: Payload)
    ensures !(d.Set? && msg.AddOne?) ==> Update(d, id, msg).data == d
    ensures !(d.Home? && msg.OpenSubWindow?) ==> Update(d, id, msg).msg.None?
  {
  }
}
