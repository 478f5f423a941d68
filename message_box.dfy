/** The message-box builder (src/widget/message_box.rs): consuming setters over the
    dialog's data and an optional close hook, and `show`, which turns the builder into a
    request to open the dialog as a child of a window. */
module MessageBoxBuilder {
  import opened Core
  import MessageBoxDialog

  datatype MessageBox = Builder(data: MessageBoxData, callbackClosed: Option<WindowCloseCallback>)

  /** `MessageBox::new(title, content)`. */
  function New(title: string, content: string): (b: MessageBox)
    ensures b.data == MessageBoxDialog.Default().(title := title, msg := content)
    ensures b.callbackClosed.None?
  {
    Builder(MessageBoxDialog.Default().(title := title, msg := content), Option.None)
  }

  /** `size`: only the dialog's window size changes. */
  function Size(b: MessageBox, size: Extent): (r: MessageBox)
    ensures r.data.windowSettings == b.data.windowSettings.(size := size)
    ensures r.data.(windowSettings := b.data.windowSettings) == b.data
    ensures r.callbackClosed == b.callbackClosed
  {
    b.(data := b.data.(windowSettings := b.data.windowSettings.(size := size)))
  }

  /** `primary_button`: only the primary button is replaced. */
  function PrimaryButton(b: MessageBox, button: Button): (r: MessageBox)
    ensures r.data.primary == button && r.data.(primary := b.data.primary) == b.data
    ensures r.callbackClosed == b.callbackClosed
  {
    b.(data := b.data.(primary := button))
  }

  /** `secondary_button`: only the secondary button is replaced. */
  function SecondaryButton(b: MessageBox, button: Button): (r: MessageBox)
    ensures r.data.secondary == button && r.data.(secondary := b.data.secondary) == b.data
    ensures r.callbackClosed == b.callbackClosed
  {
    b.(data := b.data.(secondary := button))
  }

  /** `hide_primary_button`: only the primary button's visibility changes. */
  function HidePrimaryButton(b: MessageBox): (r: MessageBox)
    ensures !r.data.primary.visible
    ensures r.data.primary.(visible := b.data.primary.visible) == b.data.primary
    ensures r.data.(primary := b.data.primary) == b.data && r.callbackClosed == b.callbackClosed
  {
    b.(data := b.data.(primary := b.data.primary.(visible := false)))
  }

  /** `hide_secondary_button`: only the secondary button's visibility changes. */
  function HideSecondaryButton(b: MessageBox): (r: MessageBox)
    ensures !r.data.secondary.visible
    ensures r.data.secondary.(visible := b.data.secondary.visible) == b.data.secondary
    ensures r.data.(secondary := b.data.secondary) == b.data && r.callbackClosed == b.callbackClosed
  {
    b.(data := b.data.(secondary := b.data.secondary.(visible := false)))
  }

  /** `on_closed(callback)`. */
  function OnClosed(b: MessageBox, callback: WindowCloseCallback): (r: MessageBox)
    ensures r.callbackClosed == Some(callback) && r.data == b.data
  {
    b.(callbackClosed := Some(callback))
  }

  /** The hook `show` installs when no `on_closed` was given. */
  function IgnoreClose(d: WindowCloseCallbackData): Message
  {
    Message.None
  }

  /** `show(id)`: always a dialog request with a close hook, parented to `id`. */
  function Show(b: MessageBox, id: WindowId): (r: Message)
    ensures r.NewWindow? && r.request.parentId == Some(id) && r.request.callback.Some?
    ensures r.request.data == MessageBox(b.data) && r.request.dataTypeId == MessageBoxTag
    ensures b.callbackClosed.Some? ==> r.request.callback == b.callbackClosed
    ensures b.callbackClosed.None? ==> forall d :: r.request.callback.value(d).None?
  {
    match b.callbackClosed
    case Some(callback) => ShowDialog(id, MessageBox(b.data), callback)
    case None => ShowDialog(id, MessageBox(b.data), IgnoreClose)
  }

  /** Hiding a button twice is hiding it once. */
  lemma HideIdempotent(b: MessageBox)
    ensures HidePrimaryButton(HidePrimaryButton(b)) == HidePrimaryButton(b)
    ensures HideSecondaryButton(HideSecondaryButton(b)) == HideSecondaryButton(b)
  {
  }

  /** The setters touch disjoint fields, so their order does not matter. */
  lemma SettersCommute(b: MessageBox, size: Extent, cb: WindowCloseCallback)
    ensures HidePrimaryButton(HideSecondaryButton(b)) == HideSecondaryButton(HidePrimaryButton(b))
    ensures Size(HidePrimaryButton(b), size) == HidePrimaryButton(Size(b, size))
    ensures OnClosed(HidePrimaryButton(b), cb) == HidePrimaryButton(OnClosed(b, cb))
  {
  }

  /** After `on_closed(cb)`, `show` passes exactly `cb`, whatever setters follow. */
  lemma OnClosedReachesShow(b: MessageBox, cb: WindowCloseCallback, id: WindowId, size: Extent)
    ensures Show(OnClosed(b, cb), id).request.callback == Some(cb)
    ensures Show(HideSecondaryButton(Size(OnClosed(b, cb), size)), id).request.callback == Some(cb)
  {
  }
}
