/** The multi-window routing engine (src/widget/multi_windows.rs, `Program`).

    `Step` is the engine's meaning as a function of the whole program state: it gives the
    new state and the host commands for one message. `Program` is the engine as the source
    writes it, a class whose `Update` mutates its window map in place and calls itself on
    derived messages; each of its methods is proved to compute `Step`.

    Host tasks are a flat list of commands: opening and closing a window and ending the
    program. `window::open` is modelled by the counter `nextId`, which hands out the id
    the new window is stored under.

    Messages that a window or a close hook produces while another message is handled
    ("derived" messages) are handled with one unit of `fuel` less; when no fuel is left a
    derived message is dropped. The source recurses without such a bound. */
module MultiWindows {
  import opened Core
  import Pages

  datatype Command = OpenWindow(id: WindowId, settings: Settings) | CloseWindow(id: WindowId) | Terminate

  /** The engine's fields: the window map, the global theme, scale and root icon, and the
      next id `window::open` will return. */
  datatype State = State(
    windows: map<WindowId, Window>,
    theme: IcedTheme,
    scale: real,
    icon: Option<Icon>,
    nextId: WindowId)

  /** The state after a message and the commands it issued, in order. */
  datatype Outcome = Outcome(state: State, cmds: seq<Command>)

  /** A measure on messages that decreases from a batch to its elements and from `Close`
      to the `Closed` it triggers. */
  function Size(m: Message): (r: nat)
    ensures r >= 1
  {
    match m
    case MultMessage(ms) => 1 + SizeSeq(ms)
    case Event(e) => if e.Close? then 2 else 1
    case _ => 1
  }

  function SizeSeq(ms: seq<Message>): nat
  {
    if ms == [] then 0 else SizeSeq(ms[..|ms| - 1]) + Size(ms[|ms| - 1])
  }

  lemma {:induction false} SizeOfElement(ms: seq<Message>, i: nat)
    requires i < |ms|
    ensures Size(ms[i]) <= SizeSeq(ms)
  {
    if i < |ms| - 1 {
      assert ms[..|ms| - 1][i] == ms[i];
      SizeOfElement(ms[..|ms| - 1], i);
    }
  }

  /** `Program::new`: the root window, registered under the id of the one open command;
      its type tag is left at the placeholder of `Window::default`. */
  function Init(data: PageData): Outcome
  {
    var w := Pages.NewWindowOf(data);
    Outcome(State(map[0 := w], CatppuccinLatte, 1.0, w.settings.icon, 1), [OpenWindow(0, w.settings)])
  }

  /** `Program::title`. */
  function TitleOf(s: State, id: WindowId): string
  {
    if id in s.windows then s.windows[id].title else ""
  }

  function Retitle(s: State, id: WindowId, title: string): State
  {
    if id in s.windows then s.(windows := s.windows[id := s.windows[id].(title := title)]) else s
  }

  /** Some live window carries type tag `tag`. */
  predicate TagLive(ws: map<WindowId, Window>, tag: TypeTag)
  {
    exists k | k in ws :: ws[k].dataTypeId == tag
  }

  /** The window record an accepted request becomes: the data's own window, with the
      root icon when it has none, parent and tag from the request, and the request's
      hook when there is one. */
  function Materialize(rootIcon: Option<Icon>, req: WindowData): Window
  {
    var w0 := Pages.NewWindowOf(req.data);
    var w1 := if w0.settings.icon.None? then w0.(settings := w0.settings.(icon := rootIcon)) else w0;
    var w2 := w1.(parentId := req.parentId, dataTypeId := req.dataTypeId);
    if req.callback.Some? then w2.(windowClosedCallback := req.callback) else w2
  }

  /** `Message::NewWindow`: dropped when a window of the same tag is live; otherwise the
      window is stored at once under a fresh id and becomes its live parent's child. */
  function OpenRequest(s: State, req: WindowData): Outcome
  {
    if TagLive(s.windows, req.dataTypeId) then Outcome(s, [])
    else
      var w := Materialize(s.icon, req);
      var id := s.nextId;
      var ws := s.windows[id := w];
      var ws' := if req.parentId.Some? && req.parentId.value in ws
                 then ws[req.parentId.value := ws[req.parentId.value].(childId := Some(id))]
                 else ws;
      Outcome(s.(windows := ws', nextId := id + 1), [OpenWindow(id, w.settings)])
  }

  /** The window map after a broadcast, and the non-`None` replies in id order. */
  datatype Broadcast = Broadcast(windows: map<WindowId, Window>, replies: seq<Message>)

  /** Delivers payload `p` to every window with an id below `n`, in ascending id order
      (the order of a `BTreeMap`), each window updating its own data. */
  function BroadcastUpTo(ws: map<WindowId, Window>, p: Payload, n: nat): Broadcast
  {
    if n == 0 then Broadcast(ws, [])
    else
      var b := BroadcastUpTo(ws, p, n - 1);
      var id := n - 1;
      if id in b.windows then
        var reply := Pages.Update(b.windows[id].data, id, p);
        Broadcast(b.windows[id := b.windows[id].(data := reply.data)],
                  if reply.msg.None? then b.replies else b.replies + [reply.msg])
      else b
  }

  /** A derived message, handled with one unit of fuel less. */
  function Derived(s: State, m: Message, fuel: nat): Outcome
    decreases fuel, 0, 0
  {
    if fuel == 0 then Outcome(s, []) else Step(s, m, fuel - 1)
  }

  /** `Program::update`. */
  function Step(s: State, m: Message, fuel: nat): Outcome
    decreases fuel, Size(m), 2
  {
    match m
    case None => Outcome(s, [])
    case Theme(t) => Outcome(s.(theme := t), [])
    case Scale(x) => Outcome(s.(scale := x), [])
    case TitleChanged(id, t) => Outcome(Retitle(s, id, t), [])
    case Event(e) => StepEvent(s, e, fuel)
    case NewWindow(req) => OpenRequest(s, req)
    case WindowMsg(wm) => StepBroadcast(s, wm, fuel)
    case MultMessage(ms) => StepSeq(s, ms, fuel)
    case Exit => Outcome(s, [Terminate])
  }

  /** `Message::MultMessage`: the elements in list order, commands concatenated. */
  function StepSeq(s: State, ms: seq<Message>, fuel: nat): Outcome
    decreases fuel, SizeSeq(ms), 3
  {
    if ms == [] then Outcome(s, [])
    else
      var o := StepSeq(s, ms[..|ms| - 1], fuel);
      var o' := Step(o.state, ms[|ms| - 1], fuel);
      Outcome(o'.state, o.cmds + o'.cmds)
  }

  /** `Message::WindowMessage(wm)`: every window's `update`, in ascending id order, then
      the non-`None` replies as one derived batch. */
  function StepBroadcast(s: State, wm: WindowMessage, fuel: nat): Outcome
    decreases fuel, 1, 1
  {
    var b := BroadcastUpTo(s.windows, wm.msg, s.nextId);
    Derived(s.(windows := b.windows), MultMessage(b.replies), fuel)
  }

  /** The events the host reports about a window, which the window answers through one
      of its hooks; `Close` and `Closed` are handled by the engine itself. */
  predicate IsNotification(e: EventMessage)
  {
    !e.Close? && !e.Closed?
  }

  /** The `IWindow` hook a notification calls on the window's data. */
  function Hook(d: PageData, e: EventMessage): Message
    requires IsNotification(e)
  {
    match e
    case Opened(id, position, size) => Pages.OnOpened(d, id, position, size)
    case Moved(id, x, y) => Pages.OnMoved(d, id, x, y)
    case Resized(id, w, h) => Pages.OnResized(d, id, w, h)
    case CloseRequest(id) => Pages.OnCloseRequest(d, id)
    case Focused(id) => Pages.OnFocus(d, id)
    case Unfocused(id) => Pages.OnUnfocus(d, id)
  }

  /** `Message::EventMessage`: a notification for a live window is the window's answer,
      handled as a derived message; for an absent window it is ignored. */
  function StepEvent(s: State, e: EventMessage, fuel: nat): Outcome
    decreases fuel, Size(Event(e)), 1
  {
    match e
    case Close(id, r) => StepClose(s, id, r, fuel)
    case Closed(id, r) => StepClosed(s, id, r, fuel)
    case _ => if e.id in s.windows then Derived(s, Hook(s.windows[e.id].data, e), fuel) else Outcome(s, [])
  }

  /** The parent a live window names, and its close hook. */
  function ParentOf(ws: map<WindowId, Window>, id: WindowId): Option<WindowId>
  {
    if id in ws then ws[id].parentId else Option.None
  }

  function HookOf(ws: map<WindowId, Window>, id: WindowId): Option<WindowCloseCallback>
  {
    if id in ws then ws[id].windowClosedCallback else Option.None
  }

  /** The part of `EventMessage::Close(id, r)` before teardown: the window's hook, run
      against the parent's id and data, when the window, its parent and the hook all
      exist; nothing otherwise. */
  function CloseHook(s: State, id: WindowId, r: DialogResult, fuel: nat): Outcome
    decreases fuel, 0, 2
  {
    var parentId := ParentOf(s.windows, id);
    var callback := HookOf(s.windows, id);
    if parentId.Some? && parentId.value in s.windows && callback.Some?
    then Derived(s, callback.value(WindowCloseCallbackData(parentId.value, r, s.windows[parentId.value].data)), fuel)
    else Outcome(s, [])
  }

  /** `EventMessage::Close(id, r)`: the hook, then `Closed(id, r)`, then the close
      command. */
  function StepClose(s: State, id: WindowId, r: DialogResult, fuel: nat): Outcome
    decreases fuel, 1, 1
  {
    var hooked := CloseHook(s, id, r, fuel);
    var closed := StepClosed(hooked.state, id, r, fuel);
    Outcome(closed.state, hooked.cmds + closed.cmds + [CloseWindow(id)])
  }

  /** `EventMessage::Closed(id, r)`: the live parent forgets its child, the window's
      `on_window_closed` answer is handled while it is still present, then it is removed;
      an empty collection yields exactly the exit command. */
  function StepClosed(s: State, id: WindowId, r: DialogResult, fuel: nat): Outcome
    decreases fuel, 0, 1
  {
    var parentId := ParentOf(s.windows, id);
    var s1 := if parentId.Some? && parentId.value in s.windows
              then s.(windows := s.windows[parentId.value := s.windows[parentId.value].(childId := Option.None)])
              else s;
    if id in s1.windows then
      var o := Derived(s1, Pages.OnWindowClosed(s1.windows[id].data, id, r), fuel);
      var s2 := o.state.(windows := o.state.windows - {id});
      if |s2.windows| == 0 then Outcome(s2, [Terminate]) else Outcome(s2, o.cmds)
    else if |s1.windows| == 0 then Outcome(s1, [Terminate])
    else Outcome(s1, [])
  }

  /** A derived `Message::None` changes nothing, with or without fuel. */
  lemma DerivedNoneIsInert(s: State, fuel: nat)
    ensures Derived(s, Message.None, fuel) == Outcome(s, [])
  {
    if fuel > 0 {
      assert Derived(s, Message.None, fuel) == Step(s, Message.None, fuel - 1);
    }
  }

  /** The engine, with the source's in-place updates. */
  class Program {
    var windows: map<WindowId, Window>
    var theme: IcedTheme
    var scale: real
    var icon: Option<Icon>
    var nextId: WindowId

    function Snapshot(): State
      reads this
    {
      State(windows, theme, scale, icon, nextId)
    }

    /** The fields of `Program::new`. */
    constructor (data: PageData)
      ensures Snapshot() == Init(data).state
    {
      var w := Pages.NewWindowOf(data);
      windows := map[0 := w];
      theme := CatppuccinLatte;
      scale := 1.0;
      icon := w.settings.icon;
      nextId := 1;
    }

    /** `Program::new`: the program and the command that opens its root window. */
    static method New(data: PageData) returns (p: Program, open: seq<Command>)
      ensures fresh(p) && p.Snapshot() == Init(data).state && open == Init(data).cmds
    {
      p := new Program(data);
      open := [OpenWindow(0, p.windows[0].settings)];
    }

    /** `Program::title`. */
    function Title(window: WindowId): (r: string)
      reads this
      ensures window in windows ==> r == windows[window].title
      ensures window !in windows ==> r == ""
    {
      TitleOf(Snapshot(), window)
    }

    /** `Program::update`. */
    method Update(message: Message, fuel: nat) returns (tasks: seq<Command>)
      modifies this
      decreases fuel, Size(message), 2
      ensures Outcome(Snapshot(), tasks) == Step(old(Snapshot()), message, fuel)
    {
      match message {
        case None =>
          tasks := [];
        case Theme(t) =>
          theme := t;
          tasks := [];
        case Scale(x) =>
          scale := x;
          tasks := [];
        case TitleChanged(id, t) =>
          if id in windows {
            windows := windows[id := windows[id].(title := t)];
          }
          tasks := [];
        case Event(e) =>
          tasks := HandleEvent(e, fuel);
        case NewWindow(req) =>
          tasks := OpenWindowRequest(req);
        case WindowMsg(wm) =>
          tasks := BroadcastMessage(wm, fuel);
        case MultMessage(ms) =>
          tasks := Batch(ms, fuel);
        case Exit =>
          tasks := [Terminate];
      }
    }

    /** A derived message. */
    method Derive(message: Message, fuel: nat) returns (tasks: seq<Command>)
      modifies this
      decreases fuel, 0, 0
      ensures Outcome(Snapshot(), tasks) == Derived(old(Snapshot()), message, fuel)
    {
      if fuel == 0 {
        tasks := [];
      } else {
        tasks := Update(message, fuel - 1);
      }
    }

    method Batch(ms: seq<Message>, fuel: nat) returns (tasks: seq<Command>)
      modifies this
      decreases fuel, SizeSeq(ms), 3
      ensures Outcome(Snapshot(), tasks) == StepSeq(old(Snapshot()), ms, fuel)
    {
      ghost var s0 := Snapshot();
      tasks := [];
      var i := 0;
      while i < |ms|
        invariant 0 <= i <= |ms|
        invariant Outcome(Snapshot(), tasks) == StepSeq(s0, ms[..i], fuel)
      {
        SizeOfElement(ms, i);
        var t := Update(ms[i], fuel);
        assert ms[..i + 1][..i] == ms[..i];
        tasks := tasks + t;
        i := i + 1;
      }
      assert ms[..|ms|] == ms;
    }

    /** `Message::WindowMessage`: every window's `update`, in ascending id order, then the
        non-`None` replies as one batch. */
    method BroadcastMessage(wm: WindowMessage, fuel: nat) returns (tasks: seq<Command>)
      modifies this
      decreases fuel, 1, 1
      ensures Outcome(Snapshot(), tasks) == StepBroadcast(old(Snapshot()), wm, fuel)
    {
      ghost var s0 := Snapshot();
      var msgs: seq<Message> := [];
      var n := nextId;
      for i := 0 to n
        invariant Broadcast(windows, msgs) == BroadcastUpTo(s0.windows, wm.msg, i)
        invariant theme == s0.theme && scale == s0.scale && icon == s0.icon && nextId == s0.nextId
      {
        if i in windows {
          var reply := Pages.Update(windows[i].data, i, wm.msg);
          windows := windows[i := windows[i].(data := reply.data)];
          if !reply.msg.None? {
            msgs := msgs + [reply.msg];
          }
        }
      }
      tasks := Derive(MultMessage(msgs), fuel);
    }

    /** `Message::NewWindow`. */
    method OpenWindowRequest(req: WindowData) returns (tasks: seq<Command>)
      modifies this
      ensures Outcome(Snapshot(), tasks) == OpenRequest(old(Snapshot()), req)
    {
      if TagLive(windows, req.dataTypeId) {
        tasks := [];
        return;
      }
      var w := Pages.NewWindowOf(req.data);
      if w.settings.icon.None? {
        w := w.(settings := w.settings.(icon := icon));
      }
      w := w.(parentId := req.parentId, dataTypeId := req.dataTypeId);
      if req.callback.Some? {
        w := w.(windowClosedCallback := req.callback);
      }
      var id := nextId;
      nextId := nextId + 1;
      windows := windows[id := w];
      if req.parentId.Some? && req.parentId.value in windows {
        windows := windows[req.parentId.value := windows[req.parentId.value].(childId := Some(id))];
      }
      tasks := [OpenWindow(id, w.settings)];
    }

    /** `Message::EventMessage`. */
    method HandleEvent(e: EventMessage, fuel: nat) returns (tasks: seq<Command>)
      modifies this
      decreases fuel, Size(Event(e)), 1
      ensures Outcome(Snapshot(), tasks) == StepEvent(old(Snapshot()), e, fuel)
    {
      tasks := [];
      match e {
        case Close(id, r) =>
          tasks := HandleClose(id, r, fuel);
        case Closed(id, r) =>
          tasks := HandleClosed(id, r, fuel);
        case _ =>
          if e.id in windows {
            tasks := Derive(Hook(windows[e.id].data, e), fuel);
          }
      }
    }

    /** `EventMessage::Close`. */
    method HandleClose(id: WindowId, r: DialogResult, fuel: nat) returns (tasks: seq<Command>)
      modifies this
      decreases fuel, 2, 0
      ensures Outcome(Snapshot(), tasks) == StepClose(old(Snapshot()), id, r, fuel)
    {
      ghost var s0 := Snapshot();
      tasks := [];
      var parentId := ParentOf(windows, id);
      var callback := HookOf(windows, id);
      ghost var hooked := CloseHook(s0, id, r, fuel);
      if parentId.Some? && parentId.value in windows && callback.Some? {
        var m1 := callback.value(WindowCloseCallbackData(parentId.value, r, windows[parentId.value].data));
        var t1 := Derive(m1, fuel);
        tasks := tasks + t1;
      }
      assert Outcome(Snapshot(), tasks) == hooked;
      var cmd := Update(Event(Closed(id, r)), fuel);
      assert Outcome(Snapshot(), cmd) == StepClosed(hooked.state, id, r, fuel);
      tasks := tasks + cmd + [CloseWindow(id)];
    }

    /** `EventMessage::Closed`. */
    method HandleClosed(id: WindowId, r: DialogResult, fuel: nat) returns (tasks: seq<Command>)
      modifies this
      decreases fuel, 0, 1
      ensures Outcome(Snapshot(), tasks) == StepClosed(old(Snapshot()), id, r, fuel)
    {
      ghost var s0 := Snapshot();
      tasks := [];
      var parentId := ParentOf(windows, id);
      if parentId.Some? && parentId.value in windows {
        windows := windows[parentId.value := windows[parentId.value].(childId := Option.None)];
      }
      ghost var s1 := Snapshot();
      assert s1 == if parentId.Some? && parentId.value in s0.windows
                   then s0.(windows := s0.windows[parentId.value := s0.windows[parentId.value].(childId := Option.None)])
                   else s0;
      if id in windows {
        var m1 := Pages.OnWindowClosed(windows[id].data, id, r);
        assert m1 == Message.None;
        DerivedNoneIsInert(s1, fuel);
        var cmd1 := Derive(m1, fuel);
        ghost var o := Outcome(s1, []);
        assert Outcome(Snapshot(), cmd1) == o;
        windows := windows - {id};
        assert Snapshot() == o.state.(windows := o.state.windows - {id});
        tasks := tasks + cmd1;
        if |windows| == 0 {
          tasks := [Terminate];
          return;
        }
      } else if |windows| == 0 {
        tasks := [Terminate];
        return;
      }
    }
  }
}
