/** The message-box dialog window (src/widget/inner_message_box/message_box_window.rs):
    its default configuration, the window it opens as, and the close messages its two
    buttons emit. */
module MessageBoxDialog {
  import opened Core

  /** `MessageBoxButton::new(text)`: a visible button with no dialog result of its own. */
  function NewButton(text: string): (b: Button)
    ensures b.visible && b.message == DialogResult.None && b.text == text && b.icon.None?
  {
    Button(true, DialogResult.None, text, Option.None, 16.0)
  }

  /** `MessageBoxButton::dialog_result`. */
  function WithDialogResult(b: Button, r: DialogResult): Button
  {
    b.(message := r)
  }

  function DialogSettings(): Settings
  {
    DefaultSettings().(minSize := Some(Extent(400.0, 200.0)), size := Extent(400.0, 200.0),
                       position := Centered, level := AlwaysOnTop, resizable := true, icon := Option.None)
  }

  /** `Data::default()`: primary button answers Ok, secondary answers Cancel, and the
      settings carry no icon of their own. */
  function Default(): (d: MessageBoxData)
    ensures d.primary.message == Ok && d.secondary.message == Cancel
    ensures d.primary.visible && d.secondary.visible
    ensures d.windowSettings.icon.None?
  {
    MessageBoxData("确认窗口", "确定关闭窗口?",
                   WithDialogResult(NewButton("确定"), Ok),
                   WithDialogResult(NewButton("取消"), Cancel),
                   DialogSettings())
  }

  /** `Data::new_window`: the dialog's window always has the fixed title, whatever
      `self.title` says; it carries a copy of the data and its own settings. */
  function NewWindow(d: MessageBoxData): (w: Window)
    ensures w.title == "确认窗口"
    ensures w.data == MessageBox(d) && w.settings == d.windowSettings
    ensures w.parentId.None? && w.childId.None? && w.windowClosedCallback.None?
    ensures w.dataTypeId == EmptyWindowTag
  {
    DefaultWindow(MessageBox(d)).(title := "确认窗口", settings := d.windowSettings)
  }

  /** The message of the primary button of window `id`, present only while the button is
      shown. */
  function PrimaryPressed(d: MessageBoxData, id: WindowId): (r: Option<Message>)
    ensures r.Some? <==> d.primary.visible
    ensures r.Some? ==> r.value == Event(Close(id, d.primary.message))
  {
    if d.primary.visible then Some(Event(Close(id, d.primary.message))) else Option.None
  }

  /** The message of the secondary button of window `id`, present only while the button is
      shown. */
  function SecondaryPressed(d: MessageBoxData, id: WindowId): (r: Option<Message>)
    ensures r.Some? <==> d.secondary.visible
    ensures r.Some? ==> r.value == Event(Close(id, d.secondary.message))
  {
    if d.secondary.visible then Some(Event(Close(id, d.secondary.message))) else Option.None
  }
}
