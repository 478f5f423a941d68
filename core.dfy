/** The routing vocabulary of the multi-window layer (src/core.rs): window records,
    the closed `Message` protocol, window events, dialog results, and the
    constructor helpers windows use to talk back to the engine.

    The window kinds are a closed union (`PageData`) instead of boxed trait objects,
    and the reflective `TypeId` of a window's data becomes an explicit `TypeTag`
    computed by `TypeIdOf`. */
module Core {

  datatype Option<+T> = None | Some(value: T)

  /** Host window identifiers (iced `window::Id`). */
  type WindowId = nat

  newtype U32 = x: int | 0 <= x < 0x1_0000_0000
  newtype I32 = x: int | -0x8000_0000 <= x < 0x8000_0000

  const I32_MIN: I32 := -0x8000_0000
  const I32_MAX: I32 := 0x7fff_ffff

  /** DialogResult: the outcome a closing window hands to its parent. */
  datatype DialogResult =
    | None | Ok | Cancel | Abort | Retry | Ignore | Yes | No | TryAgain | Continue
    | Custom(code: U32)

  /** The host's themes; only the one the program starts with is named. */
  datatype IcedTheme = Light | Dark | CatppuccinLatte | Other(name: string)

  /** Host geometry values are carried, never computed with. */
  datatype Extent = Extent(width: real, height: real)
  datatype Point = Point(x: real, y: real)
  datatype Position = DefaultPosition | Centered
  datatype Level = Normal | AlwaysOnTop
  /** A window icon, compared only by identity. */
  datatype Icon = Icon(handle: nat)

  /** The part of iced's `window::Settings` that the windows of this program set. */
  datatype Settings = Settings(
    size: Extent,
    position: Position,
    minSize: Option<Extent>,
    resizable: bool,
    level: Level,
    icon: Option<Icon>,
    exitOnCloseRequest: bool)

  /** iced's `window::Settings::default()`. */
  function DefaultSettings(): Settings
  {
    Settings(Extent(1024.0, 768.0), DefaultPosition, Option.None, true, Normal, Option.None, true)
  }

  /** A message-box button (`MessageBoxButton`): whether it is shown, the dialog result it
      carries, its caption, its optional char icon and its text size. */
  datatype Button = Button(visible: bool, message: DialogResult, text: string, icon: Option<char>, size: real)

  /** The state of a message-box dialog (`inner_message_box::Data`). */
  datatype MessageBoxData = MessageBoxData(
    title: string,
    msg: string,
    primary: Button,
    secondary: Button,
    windowSettings: Settings)

  /** The application state of a window: one variant per window kind. */
  datatype PageData =
    | Home                         // pages/home.rs `Data {}`
    | Set(value: I32)              // pages/set.rs `Data { value }`
    | MessageBox(dialog: MessageBoxData)

  /** The type tag of window data (`std::any::TypeId`), one per kind, plus the tag of
      the placeholder `EmptyWindowData` that `Window::default` carries. */
  datatype TypeTag = EmptyWindowTag | HomeTag | SetTag | MessageBoxTag

  function TypeIdOf(d: PageData): TypeTag
  {
    match d
    case Home => HomeTag
    case Set(_) => SetTag
    case MessageBox(_) => MessageBoxTag
  }

  /** Window-specific payloads (`dyn IWindowMessage`): the home page's
      `Msg::OpenSubWindow`, the set page's `Msg::AddOne`, and a message type of some
      other page, known only by its tag. */
  datatype Payload = OpenSubWindow | AddOne | Foreign(tag: nat)

  datatype PayloadTag = HomeMsgTag | SetMsgTag | ForeignTag(tag: nat)

  function PayloadTypeOf(p: Payload): PayloadTag
  {
    match p
    case OpenSubWindow => HomeMsgTag
    case AddOne => SetMsgTag
    case Foreign(t) => ForeignTag(t)
  }

  datatype WindowMessage = WindowMessage(msg: Payload, msgTypeId: PayloadTag)

  /** `WindowMessage::new`: the payload tagged with its own type. */
  function NewWindowMessage(msg: Payload): WindowMessage
  {
    WindowMessage(msg, PayloadTypeOf(msg))
  }

  /** Host-reported window events and the close protocol. */
  datatype EventMessage =
    | Close(id: WindowId, result: DialogResult)
    | Opened(id: WindowId, position: Option<Point>, size: Extent)
    | Closed(id: WindowId, result: DialogResult)
    | Moved(id: WindowId, x: real, y: real)
    | Resized(id: WindowId, width: real, height: real)
    | CloseRequest(id: WindowId)
    | Focused(id: WindowId)
    | Unfocused(id: WindowId)

  /** What a close hook is given: the PARENT's id, the closing window's result, and the
      parent's data (`WindowCloseCallbackData`). */
  datatype WindowCloseCallbackData = WindowCloseCallbackData(id: WindowId, dialogResult: DialogResult, window: PageData)
  {
    /** `get_window_data::<T>()`: the stored data, when it is of kind `tag`. */
    function GetWindowData(tag: TypeTag): (r: Option<PageData>)
      ensures r.Some? <==> TypeIdOf(window) == tag
      ensures r.Some? ==> r.value == window
    {
      if TypeIdOf(window) == tag then Some(window) else Option.None
    }
  }

  /** `WindowCloseCallback`, a plain function pointer. */
  type WindowCloseCallback = WindowCloseCallbackData -> Message

  /** A request to open a window (`core::WindowData`). */
  datatype WindowData = WindowData(
    parentId: Option<WindowId>,
    data: PageData,
    dataTypeId: TypeTag,
    callback: Option<WindowCloseCallback>)

  /** The closed routing protocol. */
  datatype Message =
    | None
    | Theme(theme: IcedTheme)
    | Scale(scale: real)
    | TitleChanged(id: WindowId, title: string)
    | Event(event: EventMessage)
    | WindowMsg(message: WindowMessage)
    | NewWindow(request: WindowData)
    | MultMessage(msgs: seq<Message>)
    | Exit

  /** A window record. */
  datatype Window = Window(
    title: string,
    settings: Settings,
    parentId: Option<WindowId>,
    childId: Option<WindowId>,
    data: PageData,
    dataTypeId: TypeTag,
    windowClosedCallback: Option<WindowCloseCallback>)

  /** `Window::default()` as the core uses it, through `..Default::default()` beside an
      explicit `data` field: empty title, default settings without icon, no parent, no
      child, no callback, and the placeholder tag of `EmptyWindowData`. */
  function DefaultWindow(data: PageData): Window
  {
    Window("", DefaultSettings().(icon := Option.None), Option.None, Option.None, data, EmptyWindowTag, Option.None)
  }

  /** `WindowData::new(parent_id, data)`. */
  function NewWindowData(parentId: Option<WindowId>, data: PageData): WindowData
  {
    WindowData(parentId, data, TypeIdOf(data), Option.None)
  }

  /** `Message::new_window(id, data)`: open `data` as a child of window `id`. */
  function NewWindowMsg(id: WindowId, data: PageData): (r: Message)
    ensures r.NewWindow? && r.request.parentId == Some(id) && r.request.data == data
    ensures r.request.dataTypeId == TypeIdOf(data) && r.request.callback.None?
  {
    NewWindow(NewWindowData(Some(id), data))
  }

  /** `Message::show_dialog(id, data, hook)`: like `NewWindowMsg`, with a close hook. */
  function ShowDialog(id: WindowId, data: PageData, hook: WindowCloseCallback): (r: Message)
    ensures r.NewWindow? && r.request.parentId == Some(id) && r.request.data == data
    ensures r.request.dataTypeId == TypeIdOf(data) && r.request.callback == Some(hook)
  {
    NewWindow(WindowData(Some(id), data, TypeIdOf(data), Some(hook)))
  }

  /** `Message::window_message(msg)`, also `From<T: IWindowMessage>`. */
  function WindowMessageOf(msg: Payload): Message
  {
    WindowMsg(NewWindowMessage(msg))
  }

  /** `Message::events(msgs)`: a batch of event messages, in order. */
  method Events(msgs: seq<EventMessage>) returns (m: Message)
    ensures m.MultMessage? && |m.msgs| == |msgs|
    ensures forall i :: 0 <= i < |msgs| ==> m.msgs[i] == Event(msgs[i])
  {
    var batch: seq<Message> := [];
    for i := 0 to |msgs|
      invariant |batch| == i
      invariant forall j :: 0 <= j < i ==> batch[j] == Event(msgs[j])
    {
      batch := batch + [Event(msgs[i])];
    }
    m := MultMessage(batch);
  }

  /** `Message::window_messages(msgs)`: one window message per payload, in order, each
      tagged with its payload's type. */
  method WindowMessages(msgs: seq<Payload>) returns (m: Message)
    ensures m.MultMessage? && |m.msgs| == |msgs|
    ensures forall i :: 0 <= i < |msgs| ==>
      m.msgs[i].WindowMsg? && m.msgs[i].message.msg == msgs[i] && m.msgs[i].message.msgTypeId == PayloadTypeOf(msgs[i])
  {
    var batch: seq<Message> := [];
    for i := 0 to |msgs|
      invariant |batch| == i
      invariant forall j :: 0 <= j < i ==> batch[j] == WindowMessageOf(msgs[j])
    {
      batch := batch + [WindowMessageOf(msgs[i])];
    }
    m := MultMessage(batch);
  }

  /** The default `IWindow` hooks. */
  function DefaultUpdate(id: WindowId, msg: Payload): Message { Message.None }
  function DefaultOnOpened(id: WindowId, position: Option<Point>, size: Extent): Message { Message.None }
  function DefaultOnWindowClosed(id: WindowId, result: DialogResult): Message { Message.None }
  function DefaultOnCloseRequest(id: WindowId): Message { Event(Close(id, DialogResult.None)) }
  function DefaultOnFocus(id: WindowId): Message { Message.None }
  function DefaultOnUnfocus(id: WindowId): Message { Message.None }
  function DefaultOnMoved(id: WindowId, x: real, y: real): Message { Message.None }
  function DefaultOnResized(id: WindowId, width: real, height: real): Message { Message.None }
}
