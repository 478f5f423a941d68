/** What each message does to the engine, stated against `Step` and proved for every
    state: the root window, retitling, the one-window-per-kind rule on open, the close
    protocol with its hook, teardown and exit, the broadcast of window messages, batches,
    and the host notifications. */
module MultiWindowsProps {
  import opened Core
  import Pages
  import SetPage
  import HomePage
  import MessageBoxDialog
  import MessageBoxBuilder
  import opened MultiWindows
  import opened MultiWindowsInvariant

  // ----- Program::new -----

  /** `new` opens exactly one window, registered under the id of the one open command; the
      globals start at CatppuccinLatte, 1.0 and the window's own icon, and the window keeps
      the placeholder type tag instead of its data's. */
  lemma InitOpensOneWindow(data: PageData)
    ensures var o := Init(data);
      o.state.windows.Keys == {0} && o.state.nextId == 1
      && o.cmds == [OpenWindow(0, o.state.windows[0].settings)]
      && o.state.windows[0] == Pages.NewWindowOf(data)
      && o.state.windows[0].dataTypeId == EmptyWindowTag != TypeIdOf(data)
      && o.state.windows[0].data == data && o.state.windows[0].parentId.None?
      && o.state.theme == CatppuccinLatte && o.state.scale == 1.0
      && o.state.icon == o.state.windows[0].settings.icon
  {
    Pages.NewWindowLeavesDefaults(data);
  }

  /** The home page's root window is titled "Main Window". */
  lemma InitTitle()
    ensures TitleOf(Init(Home).state, 0) == "Main Window"
    ensures forall id: WindowId | id != 0 :: TitleOf(Init(Home).state, id) == ""
  {
  }

  // ----- TitleChanged, Theme, Scale, Exit, None -----

  /** `TitleChanged(id, t)` retitles window `id` only and issues nothing; for an absent id
      it changes nothing. */
  lemma TitleChangedRetitlesOnlyThatWindow(s: State, id: WindowId, title: string, fuel: nat)
    ensures var o := Step(s, TitleChanged(id, title), fuel);
      o.cmds == [] && o.state.(windows := s.windows) == s
      && o.state.windows.Keys == s.windows.Keys
      && (forall k | k in s.windows && k != id :: o.state.windows[k] == s.windows[k])
      && (id in s.windows ==> o.state.windows[id] == s.windows[id].(title := title) && TitleOf(o.state, id) == title)
      && (id !in s.windows ==> o.state == s)
  {
  }

  /** `Theme` and `Scale` set their own global and issue nothing. */
  lemma GlobalsChangeAlone(s: State, theme: IcedTheme, scale: real, fuel: nat)
    ensures var o := Step(s, Theme(theme), fuel); o.cmds == [] && o.state.theme == theme && o.state.(theme := s.theme) == s
    ensures var o := Step(s, Scale(scale), fuel); o.cmds == [] && o.state.scale == scale && o.state.(scale := s.scale) == s
  {
  }

  /** `Exit` only ends the program; `None` does nothing. */
  lemma ExitAndNone(s: State, fuel: nat)
    ensures Step(s, Exit, fuel) == Outcome(s, [Terminate])
    ensures Step(s, Message.None, fuel) == Outcome(s, [])
  {
  }

  // ----- NewWindow -----

  /** A request whose tag some live window carries changes nothing and issues nothing. */
  lemma DuplicateKindDropped(s: State, req: WindowData, fuel: nat)
    requires TagLive(s.windows, req.dataTypeId)
    ensures Step(s, NewWindow(req), fuel) == Outcome(s, [])
  {
  }

  /** An accepted request adds exactly one window under the fresh id, with the request's
      parent, tag, data and hook and the root icon when its own settings have none; the
      one command opens it. */
  lemma AcceptedRequestOpensOne(s: State, req: WindowData, fuel: nat)
    requires Valid(s) && !TagLive(s.windows, req.dataTypeId)
    ensures var o := Step(s, NewWindow(req), fuel); var n := s.nextId;
      n !in s.windows && o.state.windows.Keys == s.windows.Keys + {n} && |o.state.windows| == |s.windows| + 1
      && o.state.nextId == n + 1
      && o.cmds == [OpenWindow(n, o.state.windows[n].settings)]
      && o.state.windows[n].parentId == req.parentId && o.state.windows[n].dataTypeId == req.dataTypeId
      && o.state.windows[n].data == req.data && o.state.windows[n].title == Pages.NewWindowOf(req.data).title
      && (req.callback.Some? ==> o.state.windows[n].windowClosedCallback == req.callback)
      && (req.callback.None? ==> o.state.windows[n].windowClosedCallback.None?)
      && o.state.windows[n].settings ==
           (var own := Pages.NewWindowOf(req.data).settings; if own.icon.None? then own.(icon := s.icon) else own)
      && o.state.windows[n].childId == (if req.parentId == Some(n) then Some(n) else Option.None)
  {
    var n := s.nextId;
    OpenRequestAccepted(s, req);
    MaterializeFields(s.icon, req);
    assert Step(s, NewWindow(req), fuel) == OpenRequest(s, req);
  }

  /** The map after an accepted request, in terms of the new window's record. */
  lemma OpenRequestAccepted(s: State, req: WindowData)
    requires Valid(s) && !TagLive(s.windows, req.dataTypeId)
    ensures var o := OpenRequest(s, req); var n := s.nextId; var w := Materialize(s.icon, req);
      n !in s.windows && o.state.windows.Keys == s.windows.Keys + {n} && |o.state.windows| == |s.windows| + 1
      && o.state.nextId == n + 1 && o.cmds == [OpenWindow(n, w.settings)]
      && o.state.windows[n] == (if req.parentId == Some(n) then w.(childId := Some(n)) else w)
  {
    var n := s.nextId;
    assert n !in s.windows;
    var o := OpenRequest(s, req);
    var w := Materialize(s.icon, req);
    var ws := s.windows[n := w];
    assert |ws| == |s.windows| + 1;
    if req.parentId.Some? && req.parentId.value in ws {
      assert o.state.windows == ws[req.parentId.value := ws[req.parentId.value].(childId := Some(n))];
    } else {
      assert o.state.windows == ws;
    }
    assert o.state.windows.Keys == ws.Keys;
  }

  lemma MaterializeFields(rootIcon: Option<Icon>, req: WindowData)
    ensures var w := Materialize(rootIcon, req);
      w.parentId == req.parentId && w.dataTypeId == req.dataTypeId && w.data == req.data
      && w.title == Pages.NewWindowOf(req.data).title && w.childId.None?
      && (req.callback.Some? ==> w.windowClosedCallback == req.callback)
      && (req.callback.None? ==> w.windowClosedCallback.None?)
      && w.settings == (var own := Pages.NewWindowOf(req.data).settings; if own.icon.None? then own.(icon := rootIcon) else own)
  {
    Pages.NewWindowLeavesDefaults(req.data);
  }

  /** An accepted request makes the new window its live parent's child, replacing an
      earlier child; every other window, and every global but the counter, is as it was. */
  lemma AcceptedRequestLinksParent(s: State, req: WindowData, fuel: nat)
    requires Valid(s) && !TagLive(s.windows, req.dataTypeId)
    ensures var o := Step(s, NewWindow(req), fuel); var n := s.nextId;
      o.state.(windows := s.windows, nextId := s.nextId) == s
      && (forall k | k in s.windows && Some(k) != req.parentId :: k in o.state.windows && o.state.windows[k] == s.windows[k])
      && (req.parentId.Some? && req.parentId.value in s.windows ==>
            req.parentId.value in o.state.windows
            && o.state.windows[req.parentId.value] == s.windows[req.parentId.value].(childId := Some(n)))
  {
    var n := s.nextId;
    assert n !in s.windows;
    var o := OpenRequest(s, req);
    assert Step(s, NewWindow(req), fuel) == o;
  }

  /** The same request a second time is dropped: a kind opens at most once. */
  lemma RequestOpensOnce(s: State, req: WindowData, fuel: nat, fuel2: nat)
    requires Valid(s)
    ensures var t := Step(s, NewWindow(req), fuel).state;
      Step(t, NewWindow(req), fuel2) == Outcome(t, [])
  {
    var t := Step(s, NewWindow(req), fuel).state;
    if !TagLive(s.windows, req.dataTypeId) {
      AcceptedRequestOpensOne(s, req, fuel);
      assert t.windows[s.nextId].dataTypeId == req.dataTypeId;
    }
    assert TagLive(t.windows, req.dataTypeId);
  }

  /** The root window is not guarded by its kind: it carries the placeholder tag, so a
      request for a second home window is accepted. */
  lemma RootKindNotGuarded(fuel: nat)
    ensures var o := Step(Init(Home).state, NewWindowMsg(0, Home), fuel);
      o.state.windows.Keys == {0, 1} && o.state.windows[0].data == Home && o.state.windows[1].data == Home
      && o.cmds == [OpenWindow(1, o.state.windows[1].settings)]
  {
    var s := Init(Home).state;
    InitValid(Home);
    assert !TagLive(s.windows, HomeTag);
    AcceptedRequestOpensOne(s, NewWindowData(Some(0), Home), fuel);
    AcceptedRequestLinksParent(s, NewWindowData(Some(0), Home), fuel);
  }

  /** A dialog from `MessageBox::new(..).show(p)` opens with the root icon, the dialog title,
      a close hook and `p` as parent, when no dialog is open. */
  lemma ShownDialogInheritsRootIcon(s: State, title: string, content: string, p: WindowId, fuel: nat)
    requires Valid(s) && !TagLive(s.windows, MessageBoxTag)
    ensures var o := Step(s, MessageBoxBuilder.Show(MessageBoxBuilder.New(title, content), p), fuel); var n := s.nextId;
      n in o.state.windows && o.state.windows[n].settings.icon == s.icon
      && o.state.windows[n].title == "确认窗口" && o.state.windows[n].parentId == Some(p)
      && o.state.windows[n].windowClosedCallback.Some? && o.state.windows[n].dataTypeId == MessageBoxTag
  {
    var b := MessageBoxBuilder.New(title, content);
    var m := MessageBoxBuilder.Show(b, p);
    AcceptedRequestOpensOne(s, m.request, fuel);
  }

  // ----- EventMessage::Close -----

  /** `Close(id, r)` always ends with the close command for `id`, and `id` is not live
      afterwards, whether or not it was before. */
  lemma CloseAlwaysEmitsClose(s: State, id: WindowId, r: DialogResult, fuel: nat)
    ensures var o := Step(s, Event(Close(id, r)), fuel);
      |o.cmds| >= 1 && o.cmds[|o.cmds| - 1] == CloseWindow(id) && id !in o.state.windows
  {
    assert Step(s, Event(Close(id, r)), fuel) == StepClose(s, id, r, fuel);
    var hooked := CloseHook(s, id, r, fuel);
    ClosedOutcome(hooked.state, id, r, fuel);
  }

  /** Without a live window, a live parent and a hook, no hook runs: `Close` is the
      window's teardown followed by its close command. */
  lemma CloseWithoutHook(s: State, id: WindowId, r: DialogResult, fuel: nat)
    requires !(ParentOf(s.windows, id).Some? && ParentOf(s.windows, id).value in s.windows && HookOf(s.windows, id).Some?)
    ensures var ws := Detached(s.windows, id);
      Step(s, Event(Close(id, r)), fuel) ==
        Outcome(s.(windows := ws), (if |ws| == 0 then [Terminate] else []) + [CloseWindow(id)])
  {
    assert Step(s, Event(Close(id, r)), fuel) == StepClose(s, id, r, fuel);
    var hooked := CloseHook(s, id, r, fuel);
    assert hooked == Outcome(s, []);
    var closed := StepClosed(s, id, r, fuel);
    ClosedOutcome(s, id, r, fuel);
    assert StepClose(s, id, r, fuel) == Outcome(closed.state, hooked.cmds + closed.cmds + [CloseWindow(id)]);
    assert hooked.cmds + closed.cmds == closed.cmds;
  }

  /** A second `Close` for the same window runs no hook and changes nothing: it only
      repeats the close command (after the exit command, if nothing is left). */
  lemma SecondCloseIsInert(s: State, id: WindowId, r: DialogResult, r2: DialogResult, fuel: nat, fuel2: nat)
    ensures var t := Step(s, Event(Close(id, r)), fuel).state;
      Step(t, Event(Close(id, r2)), fuel2) ==
        Outcome(t, if |t.windows| == 0 then [Terminate, CloseWindow(id)] else [CloseWindow(id)])
  {
    var t := Step(s, Event(Close(id, r)), fuel).state;
    CloseAlwaysEmitsClose(s, id, r, fuel);
    CloseWithoutHook(t, id, r2, fuel2);
    assert Detached(t.windows, id) == t.windows;
  }

  /** The close hook runs against the PARENT: when closing `x` the hook, given `p`'s id, the
      result and `p`'s data, answers `TitleChanged(p, title)`, the parent is retitled
      before `x` goes, forgets its child, and only the close command is issued. */
  lemma DialogResultReachesParent(s: State, x: WindowId, p: WindowId, r: DialogResult, title: string, fuel: nat)
    requires x in s.windows && p in s.windows && p != x && s.windows[x].parentId == Some(p)
    requires s.windows[x].windowClosedCallback.Some?
    requires s.windows[x].windowClosedCallback.value(WindowCloseCallbackData(p, r, s.windows[p].data)) == TitleChanged(p, title)
    requires fuel >= 1
    ensures var o := Step(s, Event(Close(x, r)), fuel);
      o.cmds == [CloseWindow(x)] && o.state.(windows := s.windows) == s
      && o.state.windows == (s.windows - {x})[p := s.windows[p].(title := title, childId := Option.None)]
  {
    assert Step(s, Event(Close(x, r)), fuel) == StepClose(s, x, r, fuel);
    assert CloseHook(s, x, r, fuel) == Derived(s, TitleChanged(p, title), fuel);
    var hooked := Derived(s, TitleChanged(p, title), fuel);
    assert hooked == Step(s, TitleChanged(p, title), fuel - 1);
    assert hooked == Outcome(Retitle(s, p, title), []);
    ClosedOutcome(hooked.state, x, r, fuel);
    var ws := Detached(hooked.state.windows, x);
    assert p in ws;
    assert ws == (s.windows - {x})[p := s.windows[p].(title := title, childId := Option.None)];
  }

  /** The hook's answer is handled while the closing window is still live: a hook that
      asks to open a window of the closing window's own kind is dropped by the
      one-window-per-kind rule, so `Close` opens nothing and is only the teardown and the
      close command. */
  lemma HookRunsBeforeTeardown(s: State, x: WindowId, p: WindowId, r: DialogResult, req: WindowData, fuel: nat)
    requires x in s.windows && p in s.windows && p != x && s.windows[x].parentId == Some(p)
    requires s.windows[x].windowClosedCallback.Some?
    requires s.windows[x].windowClosedCallback.value(WindowCloseCallbackData(p, r, s.windows[p].data)) == NewWindow(req)
    requires req.dataTypeId == s.windows[x].dataTypeId
    requires fuel >= 1
    ensures Step(s, Event(Close(x, r)), fuel) == Outcome(s.(windows := Detached(s.windows, x)), [CloseWindow(x)])
  {
    assert Step(s, Event(Close(x, r)), fuel) == StepClose(s, x, r, fuel);
    assert TagLive(s.windows, req.dataTypeId);
    var hooked := CloseHook(s, x, r, fuel);
    assert hooked == Derived(s, NewWindow(req), fuel);
    assert Derived(s, NewWindow(req), fuel) == Step(s, NewWindow(req), fuel - 1);
    assert Step(s, NewWindow(req), fuel - 1) == OpenRequest(s, req);
    assert hooked == Outcome(s, []);
    var closed := StepClosed(s, x, r, fuel);
    ClosedOutcome(s, x, r, fuel);
    assert p in Detached(s.windows, x);
    assert StepClose(s, x, r, fuel) == Outcome(closed.state, hooked.cmds + closed.cmds + [CloseWindow(x)]);
  }

  /** The order matters: in a valid state, once the window has gone its kind is free, so
      the same request handled after the teardown would open a window. */
  lemma TeardownFreesTheKind(s: State, x: WindowId, req: WindowData)
    requires Valid(s) && x in s.windows && req.dataTypeId == s.windows[x].dataTypeId
    ensures !TagLive(Detached(s.windows, x), req.dataTypeId)
    ensures OpenRequest(s.(windows := Detached(s.windows, x)), req).state.nextId == s.nextId + 1
  {
    var ws := Detached(s.windows, x);
    forall k | k in ws
      ensures ws[k].dataTypeId != req.dataTypeId
    {
      assert k in s.windows && k != x && ws[k].dataTypeId == s.windows[k].dataTypeId;
    }
  }

  /** End to end: a dialog shown from live window `p` with `on_closed(cb)`, whose primary
      button is pressed, hands the button's result and `p`'s data to `cb`; when `cb`
      retitles `p`, that is the whole effect besides the dialog's teardown. */
  lemma DialogFlow(s: State, b: MessageBoxBuilder.MessageBox, cb: WindowCloseCallback, p: WindowId,
                   title: string, fuel: nat, fuel2: nat)
    requires Valid(s) && p in s.windows && !TagLive(s.windows, MessageBoxTag)
    requires b.callbackClosed == Some(cb) && b.data.primary.visible
    requires cb(WindowCloseCallbackData(p, b.data.primary.message, s.windows[p].data)) == TitleChanged(p, title)
    requires fuel2 >= 1
    ensures var t := Step(s, MessageBoxBuilder.Show(b, p), fuel).state; var n := s.nextId;
      n in t.windows && t.windows[n].data == MessageBox(b.data)
      && MessageBoxDialog.PrimaryPressed(b.data, n) == Some(Event(Close(n, b.data.primary.message)))
      && var o := Step(t, Event(Close(n, b.data.primary.message)), fuel2);
         o.cmds == [CloseWindow(n)]
         && o.state.windows == (t.windows - {n})[p := t.windows[p].(title := title, childId := Option.None)]
  {
    var m := MessageBoxBuilder.Show(b, p);
    AcceptedRequestOpensOne(s, m.request, fuel);
    AcceptedRequestLinksParent(s, m.request, fuel);
    var t := Step(s, m, fuel).state;
    var n := s.nextId;
    assert p != n && p in t.windows && t.windows[n].parentId == Some(p);
    assert t.windows[p].data == s.windows[p].data;
    assert t.windows[n].windowClosedCallback == Some(cb);
    DialogResultReachesParent(t, n, p, b.data.primary.message, title, fuel2);
  }

  // ----- EventMessage::Closed -----

  /** `Closed(id, r)` for a live window removes it and clears its live parent's child
      link, touching nothing else; it yields exactly the exit command when it was the last
      window, and no command otherwise. */
  lemma ClosedRemovesWindow(s: State, id: WindowId, r: DialogResult, fuel: nat)
    requires id in s.windows
    ensures var o := Step(s, Event(Closed(id, r)), fuel);
      o.state.windows.Keys == s.windows.Keys - {id} && o.state.(windows := s.windows) == s
      && (forall k | k in o.state.windows && Some(k) != s.windows[id].parentId :: o.state.windows[k] == s.windows[k])
      && (forall p | s.windows[id].parentId == Some(p) && p in o.state.windows ::
            o.state.windows[p] == s.windows[p].(childId := Option.None))
      && (|s.windows| == 1 ==> o.cmds == [Terminate])
      && (|s.windows| > 1 ==> o.cmds == [])
  {
    ClosedOutcome(s, id, r, fuel);
    var ws := Detached(s.windows, id);
    assert ws.Keys == s.windows.Keys - {id};
    assert |ws.Keys| == |s.windows.Keys| - 1;
  }

  /** `Closed` for an absent window changes nothing; it yields the exit command exactly when
      no window is left. */
  lemma ClosedOfAbsentWindow(s: State, id: WindowId, r: DialogResult, fuel: nat)
    requires id !in s.windows
    ensures Step(s, Event(Closed(id, r)), fuel) == Outcome(s, if |s.windows| == 0 then [Terminate] else [])
  {
    ClosedOutcome(s, id, r, fuel);
    assert Detached(s.windows, id) == s.windows;
  }

  /** Closing the last window ends the program: `Close` issues the exit command and then
      the close command. */
  lemma CloseOfLastWindowTerminates(s: State, id: WindowId, r: DialogResult, fuel: nat)
    requires s.windows.Keys == {id} && s.windows[id].parentId != Some(id)
    ensures Step(s, Event(Close(id, r)), fuel) == Outcome(s.(windows := map[]), [Terminate, CloseWindow(id)])
  {
    CloseWithoutHook(s, id, r, fuel);
    assert Detached(s.windows, id) == map[];
  }

  // ----- WindowMessage and MultMessage -----

  /** Every live window's reply to payload `p`, for the ids below `n` in ascending order,
      each computed from that window's own data as it was before the broadcast. */
  function Answers(ws: map<WindowId, Window>, p: Payload, n: nat): seq<Message>
  {
    if n == 0 then []
    else Answers(ws, p, n - 1) + (if n - 1 in ws then [Pages.Update(ws[n - 1].data, n - 1, p).msg] else [])
  }

  /** The messages of `ms` that are not `Message::None`, in order. */
  function NonNone(ms: seq<Message>): seq<Message>
  {
    if ms == [] then []
    else NonNone(ms[..|ms| - 1]) + (if ms[|ms| - 1].None? then [] else [ms[|ms| - 1]])
  }

  lemma {:induction false} NonNoneAppend(ms: seq<Message>, m: Message)
    ensures NonNone(ms + [m]) == NonNone(ms) + (if m.None? then [] else [m])
  {
    assert (ms + [m])[..|ms|] == ms;
  }

  /** Every window updated once, from its own data. */
  function UpdatedAll(ws: map<WindowId, Window>, p: Payload): map<WindowId, Window>
  {
    map k | k in ws :: ws[k].(data := Pages.Update(ws[k].data, k, p).data)
  }

  /** The replies kept by a broadcast are the non-`None` answers, in ascending id order. */
  lemma {:induction false} BroadcastKeepsAnswers(ws: map<WindowId, Window>, p: Payload, n: nat)
    ensures BroadcastUpTo(ws, p, n).replies == NonNone(Answers(ws, p, n))
  {
    if n > 0 {
      BroadcastKeepsAnswers(ws, p, n - 1);
      BroadcastKeys(ws, p, n - 1);
      var id := n - 1;
      if id in ws {
        BroadcastOf(ws, p, n - 1, id);
        assert BroadcastUpTo(ws, p, n - 1).windows[id].data == ws[id].data;
        assert Answers(ws, p, n) == Answers(ws, p, n - 1) + [Pages.Update(ws[id].data, id, p).msg];
        NonNoneAppend(Answers(ws, p, n - 1), Pages.Update(ws[id].data, id, p).msg);
      } else {
        assert Answers(ws, p, n) == Answers(ws, p, n - 1);
      }
    }
  }

  /** `WindowMessage(wm)` is: every window updated once from its own data, then the
      non-`None` answers, in ascending id order, handled as one batch. */
  lemma WindowMessageIsBroadcast(s: State, wm: WindowMessage, fuel: nat)
    requires IdsIssued(s)
    ensures Step(s, WindowMsg(wm), fuel) ==
      Derived(s.(windows := UpdatedAll(s.windows, wm.msg)), MultMessage(NonNone(Answers(s.windows, wm.msg, s.nextId))), fuel)
  {
    var b := BroadcastUpTo(s.windows, wm.msg, s.nextId);
    BroadcastKeys(s.windows, wm.msg, s.nextId);
    forall k | k in s.windows ensures b.windows[k] == UpdatedAll(s.windows, wm.msg)[k] {
      BroadcastOf(s.windows, wm.msg, s.nextId, k);
    }
    BroadcastKeepsAnswers(s.windows, wm.msg, s.nextId);
    assert b.windows == UpdatedAll(s.windows, wm.msg);
  }

  lemma {:induction false} AddOneAnswersNone(ws: map<WindowId, Window>, n: nat)
    ensures NonNone(Answers(ws, AddOne, n)) == []
  {
    if n > 0 {
      AddOneAnswersNone(ws, n - 1);
      if n - 1 in ws {
        Pages.UpdateIgnoresForeignPayloads(ws[n - 1].data, n - 1, AddOne);
        assert Answers(ws, AddOne, n) == Answers(ws, AddOne, n - 1) + [Pages.Update(ws[n - 1].data, n - 1, AddOne).msg];
        NonNoneAppend(Answers(ws, AddOne, n - 1), Pages.Update(ws[n - 1].data, n - 1, AddOne).msg);
      } else {
        assert Answers(ws, AddOne, n) == Answers(ws, AddOne, n - 1);
      }
    }
  }

  /** Broadcasting `AddOne` increments every set window's counter, changes no other window
      and issues nothing. */
  lemma AddOneIncrementsEverySetWindow(s: State, fuel: nat)
    requires IdsIssued(s)
    ensures var o := Step(s, WindowMessageOf(AddOne), fuel);
      o.cmds == [] && o.state.(windows := s.windows) == s && o.state.windows.Keys == s.windows.Keys
      && forall k | k in s.windows :: o.state.windows[k] ==
           (if s.windows[k].data.Set? then s.windows[k].(data := Set(SetPage.Increment(s.windows[k].data.value)))
            else s.windows[k])
  {
    WindowMessageIsBroadcast(s, NewWindowMessage(AddOne), fuel);
    AddOneAnswersNone(s.windows, s.nextId);
    var s1 := s.(windows := UpdatedAll(s.windows, AddOne));
    if fuel > 0 {
      assert Step(s1, MultMessage([]), fuel - 1) == StepSeq(s1, [], fuel - 1);
    }
    assert Derived(s1, MultMessage([]), fuel) == Outcome(s1, []);
  }

  /** A broadcast that changes no data and draws exactly one answer is that answer,
      handled as a derived message. */
  lemma BroadcastWithOneAnswer(s: State, p: Payload, m: Message, fuel: nat)
    requires IdsIssued(s) && fuel >= 1
    requires UpdatedAll(s.windows, p) == s.windows && NonNone(Answers(s.windows, p, s.nextId)) == [m]
    ensures Step(s, WindowMessageOf(p), fuel) == Step(s, m, fuel - 1)
  {
    WindowMessageIsBroadcast(s, NewWindowMessage(p), fuel);
    assert Step(s, WindowMessageOf(p), fuel) == StepBroadcast(s, NewWindowMessage(p), fuel);
    assert s.(windows := s.windows) == s;
    assert Derived(s, MultMessage([m]), fuel) == Step(s, MultMessage([m]), fuel - 1);
    SingletonBatch(s, m, fuel - 1);
  }

  /** The home root answers `OpenSubWindow` with a request for the set page. */
  lemma RootAsksForSetWindow(fuel: nat)
    requires fuel >= 1
    ensures Step(Init(Home).state, WindowMessageOf(OpenSubWindow), fuel) ==
      Step(Init(Home).state, NewWindow(NewWindowData(Some(0), Set(0))), fuel - 1)
  {
    var s := Init(Home).state;
    InitValid(Home);
    var m := HomePage.Update(0, OpenSubWindow);
    assert m == NewWindow(NewWindowData(Some(0), Set(0)));
    assert Answers(s.windows, OpenSubWindow, 1) == [m];
    NonNoneAppend([], m);
    assert UpdatedAll(s.windows, OpenSubWindow) == s.windows;
    BroadcastWithOneAnswer(s, OpenSubWindow, m, fuel);
  }

  /** The example's scenario: the home root broadcasts `OpenSubWindow`, which opens the set
      page as its child under id 1. */
  lemma HomeOpensSetWindow(fuel: nat)
    requires fuel >= 1
    ensures var o := Step(Init(Home).state, WindowMessageOf(OpenSubWindow), fuel);
      o.state.windows.Keys == {0, 1}
      && o.state.windows[1].data == Set(0) && o.state.windows[1].parentId == Some(0)
      && o.state.windows[1].dataTypeId == SetTag
      && o.state.windows[0] == Init(Home).state.windows[0].(childId := Some(1)) && o.state.nextId == 2
      && o.cmds == [OpenWindow(1, o.state.windows[1].settings)]
  {
    var s := Init(Home).state;
    InitValid(Home);
    var req := NewWindowData(Some(0), SetPage.Default());
    RootAsksForSetWindow(fuel);
    assert !TagLive(s.windows, SetTag);
    AcceptedRequestOpensOne(s, req, fuel - 1);
    AcceptedRequestLinksParent(s, req, fuel - 1);
  }

  /** With the home window at 0 and a set window at 1, broadcasting `OpenSubWindow`
      opens nothing: the home window asks again and the request is dropped. */
  lemma SetWindowBlocksSecondOpen(t: State, v: I32, fuel2: nat)
    requires fuel2 >= 1 && t.windows.Keys == {0, 1} && t.nextId == 2
    requires t.windows[0].data == Home && t.windows[1].data == Set(v) && t.windows[1].dataTypeId == SetTag
    ensures Step(t, WindowMessageOf(OpenSubWindow), fuel2) == Outcome(t, [])
  {
    var m := HomePage.Update(0, OpenSubWindow);
    assert Answers(t.windows, OpenSubWindow, 1) == [m];
    assert Pages.Update(t.windows[1].data, 1, OpenSubWindow).msg == Message.None;
    assert Answers(t.windows, OpenSubWindow, 2) == [m] + [Message.None];
    NonNoneAppend([], m);
    NonNoneAppend([m], Message.None);
    assert NonNone(Answers(t.windows, OpenSubWindow, t.nextId)) == [m];
    assert UpdatedAll(t.windows, OpenSubWindow) == t.windows;
    BroadcastWithOneAnswer(t, OpenSubWindow, m, fuel2);
    assert TagLive(t.windows, SetTag) by {
      assert t.windows[1].dataTypeId == SetTag;
    }
    DuplicateKindDropped(t, NewWindowData(Some(0), SetPage.Default()), fuel2 - 1);
  }

  /** Broadcasting `OpenSubWindow` while the set page is open opens nothing: the home
      window asks again and the request is dropped. */
  lemma SetWindowOpensOnce(fuel: nat, fuel2: nat)
    requires fuel >= 1 && fuel2 >= 1
    ensures var t := Step(Init(Home).state, WindowMessageOf(OpenSubWindow), fuel).state;
      Step(t, WindowMessageOf(OpenSubWindow), fuel2) == Outcome(t, [])
  {
    HomeOpensSetWindow(fuel);
    var t := Step(Init(Home).state, WindowMessageOf(OpenSubWindow), fuel).state;
    assert t.windows[0].data == Home;
    SetWindowBlocksSecondOpen(t, 0, fuel2);
  }

  /** A batch of `a` then `b` is `a`, then `b` from where `a` left off, commands joined in
      that order. */
  lemma {:induction false} BatchIsSequential(s: State, a: seq<Message>, b: seq<Message>, fuel: nat)
    ensures StepSeq(s, a + b, fuel) ==
      (var o := StepSeq(s, a, fuel); var o' := StepSeq(o.state, b, fuel); Outcome(o'.state, o.cmds + o'.cmds))
    decreases |b|
  {
    if b == [] {
      assert a + b == a;
    } else {
      var b' := b[..|b| - 1];
      assert (a + b)[..|a + b| - 1] == a + b';
      assert (a + b)[|a + b| - 1] == b[|b| - 1];
      BatchIsSequential(s, a, b', fuel);
      var o := StepSeq(s, a, fuel);
      var q := StepSeq(o.state, b', fuel);
      var last := Step(q.state, b[|b| - 1], fuel);
      assert StepSeq(o.state, b, fuel) == Outcome(last.state, q.cmds + last.cmds);
      assert StepSeq(s, a + b, fuel) == Outcome(last.state, (o.cmds + q.cmds) + last.cmds);
      assert (o.cmds + q.cmds) + last.cmds == o.cmds + (q.cmds + last.cmds);
    }
  }

  /** A one-message batch is that message. */
  lemma SingletonBatch(s: State, m: Message, fuel: nat)
    ensures Step(s, MultMessage([m]), fuel) == Step(s, m, fuel)
  {
    assert [m][..0] == [];
    assert Step(s, MultMessage([m]), fuel) == StepSeq(s, [m], fuel);
    assert StepSeq(s, [], fuel) == Outcome(s, []);
    assert [] + Step(s, m, fuel).cmds == Step(s, m, fuel).cmds;
  }

  // ----- Host notifications -----

  /** No kind answers `Opened`, `Moved`, `Resized`, `Focused` or `Unfocused`: each changes
      nothing and issues nothing, for a live window or not. */
  lemma NotificationsAreInert(s: State, e: EventMessage, fuel: nat)
    requires e.Opened? || e.Moved? || e.Resized? || e.Focused? || e.Unfocused?
    ensures Step(s, Event(e), fuel) == Outcome(s, [])
  {
    assert Step(s, Event(e), fuel) == StepEvent(s, e, fuel);
    DerivedNoneIsInert(s, fuel);
    if e.id in s.windows {
      var d := s.windows[e.id].data;
      Pages.NotificationHooksReturnNone(d, e.id, if e.Opened? then e.position else Option.None,
        if e.Opened? then e.size else Extent(0.0, 0.0), DialogResult.None,
        if e.Moved? then e.x else if e.Resized? then e.width else 0.0,
        if e.Moved? then e.y else if e.Resized? then e.height else 0.0);
      assert Hook(d, e).None?;
    }
  }

  /** A close request for an absent window is ignored. */
  lemma CloseRequestOfAbsentWindowIgnored(s: State, id: WindowId, fuel: nat)
    requires id !in s.windows
    ensures Step(s, Event(CloseRequest(id)), fuel) == Outcome(s, [])
  {
    assert Step(s, Event(CloseRequest(id)), fuel) == StepEvent(s, CloseRequest(id), fuel);
    assert StepEvent(s, CloseRequest(id), fuel) == Outcome(s, []);
  }

  /** A close request to the home window ends the program and changes nothing else. */
  lemma CloseRequestOnHomeExits(s: State, id: WindowId, fuel: nat)
    requires id in s.windows && s.windows[id].data.Home? && fuel >= 1
    ensures Step(s, Event(CloseRequest(id)), fuel) == Outcome(s, [Terminate])
  {
    Pages.CloseRequestAnswers(s.windows[id].data, id);
    assert Step(s, Event(CloseRequest(id)), fuel) == StepEvent(s, CloseRequest(id), fuel);
    assert Hook(s.windows[id].data, CloseRequest(id)) == Exit;
    assert StepEvent(s, CloseRequest(id), fuel) == Derived(s, Exit, fuel);
    assert Derived(s, Exit, fuel) == Step(s, Exit, fuel - 1);
  }

  /** A close request to any other kind is handled as `Close(id, DialogResult::None)`. */
  lemma CloseRequestOnOtherPageCloses(s: State, id: WindowId, fuel: nat)
    requires id in s.windows && !s.windows[id].data.Home? && fuel >= 1
    ensures Step(s, Event(CloseRequest(id)), fuel) == Step(s, Event(Close(id, DialogResult.None)), fuel - 1)
  {
    Pages.CloseRequestAnswers(s.windows[id].data, id);
    assert Step(s, Event(CloseRequest(id)), fuel) == StepEvent(s, CloseRequest(id), fuel);
    assert Hook(s.windows[id].data, CloseRequest(id)) == Event(Close(id, DialogResult.None));
    assert StepEvent(s, CloseRequest(id), fuel) == Derived(s, Event(Close(id, DialogResult.None)), fuel);
  }
}
