/** The invariant the engine keeps over every message, whatever the windows' hooks
    answer: ids come from the counter and are never reused, at most one window of each
    type tag is live, and a window's child link names a live window that names it back
    as its parent. */
module MultiWindowsInvariant {
  import opened Core
  import Pages
  import opened MultiWindows

  /** Every live id was handed out by the counter. */
  predicate IdsIssued(s: State)
  {
    forall k | k in s.windows :: k < s.nextId
  }

  /** No two live windows share a type tag. */
  predicate OnePerKind(ws: map<WindowId, Window>)
  {
    forall a, b | a in ws && b in ws && a != b :: ws[a].dataTypeId != ws[b].dataTypeId
  }

  /** A child link names a live window whose parent link names the linker. */
  predicate ChildLinked(ws: map<WindowId, Window>)
  {
    forall k | k in ws && ws[k].childId.Some? ::
      ws[k].childId.value in ws && ws[ws[k].childId.value].parentId == Some(k)
  }

  predicate Valid(s: State)
  {
    IdsIssued(s) && OnePerKind(s.windows) && ChildLinked(s.windows)
  }

  /** From `s` to `t` the counter never goes back and every id live in `t` but not in `s`
      is fresh: an id, once closed, is never live again. */
  predicate Grows(s: State, t: State)
  {
    s.nextId <= t.nextId && forall k | k in t.windows :: k in s.windows || s.nextId <= k
  }

  lemma GrowsTransitive(s: State, t: State, u: State)
    requires Grows(s, t) && Grows(t, u)
    ensures Grows(s, u)
  {
  }

  /** The root window alone satisfies the invariant. */
  lemma InitValid(data: PageData)
    ensures Valid(Init(data).state)
  {
    Pages.NewWindowLeavesDefaults(data);
  }

  /** A broadcast keeps the set of live ids. */
  lemma {:induction false} BroadcastKeys(ws: map<WindowId, Window>, p: Payload, n: nat)
    ensures BroadcastUpTo(ws, p, n).windows.Keys == ws.Keys
  {
    if n > 0 {
      BroadcastKeys(ws, p, n - 1);
    }
  }

  /** A broadcast isolates windows: window `k` is updated once from its own data when its
      id is below `n`, whatever the others answer, and every other field of it stays. */
  lemma {:induction false} BroadcastOf(ws: map<WindowId, Window>, p: Payload, n: nat, k: WindowId)
    requires k in ws
    ensures k in BroadcastUpTo(ws, p, n).windows
    ensures BroadcastUpTo(ws, p, n).windows[k] ==
      ws[k].(data := if k < n then Pages.Update(ws[k].data, k, p).data else ws[k].data)
  {
    if n > 0 {
      BroadcastKeys(ws, p, n - 1);
      BroadcastOf(ws, p, n - 1, k);
      if n - 1 in ws && k != n - 1 {
        BroadcastOf(ws, p, n - 1, n - 1);
      }
    }
  }

  /** A broadcast changes window data only. */
  lemma BroadcastKeepsLinks(ws: map<WindowId, Window>, p: Payload, n: nat)
    ensures BroadcastUpTo(ws, p, n).windows.Keys == ws.Keys
    ensures forall k | k in ws :: BroadcastUpTo(ws, p, n).windows[k] == ws[k].(data := BroadcastUpTo(ws, p, n).windows[k].data)
  {
    BroadcastKeys(ws, p, n);
    forall k | k in ws
      ensures BroadcastUpTo(ws, p, n).windows[k] == ws[k].(data := BroadcastUpTo(ws, p, n).windows[k].data)
    {
      BroadcastOf(ws, p, n, k);
    }
  }

  /** An accepted request cannot give two live windows the same tag. */
  lemma OpenedKeepsOnePerKind(s: State, req: WindowData)
    requires Valid(s) && !TagLive(s.windows, req.dataTypeId)
    ensures OnePerKind(OpenRequest(s, req).state.windows)
  {
    var id := s.nextId;
    var w := Materialize(s.icon, req);
    var ws := s.windows[id := w];
    var t := OpenRequest(s, req).state;
    assert id !in s.windows;
    assert forall k | k in t.windows :: k in ws && t.windows[k].dataTypeId == ws[k].dataTypeId;
    forall a, b | a in t.windows && b in t.windows && a != b
      ensures t.windows[a].dataTypeId != t.windows[b].dataTypeId
    {
      if a == id {
        assert b in s.windows && s.windows[b].dataTypeId != req.dataTypeId;
      } else if b == id {
        assert a in s.windows && s.windows[a].dataTypeId != req.dataTypeId;
      }
    }
  }

  /** An accepted request links the new window to its live parent and to no one else. */
  lemma OpenedKeepsChildLinked(s: State, req: WindowData)
    requires Valid(s) && !TagLive(s.windows, req.dataTypeId)
    ensures ChildLinked(OpenRequest(s, req).state.windows)
  {
    var id := s.nextId;
    var w := Materialize(s.icon, req);
    Pages.NewWindowLeavesDefaults(req.data);
    assert w.childId.None? && w.parentId == req.parentId;
    var ws := s.windows[id := w];
    var t := OpenRequest(s, req).state;
    assert id !in s.windows;
    forall k | k in t.windows && t.windows[k].childId.Some?
      ensures t.windows[k].childId.value in t.windows
      ensures t.windows[t.windows[k].childId.value].parentId == Some(k)
    {
      if Some(k) != req.parentId {
        assert k != id && t.windows[k] == s.windows[k];
        var c := s.windows[k].childId.value;
        assert c in s.windows && c != id;
      }
    }
  }

  lemma OpenRequestKeepsValid(s: State, req: WindowData)
    requires Valid(s)
    ensures Valid(OpenRequest(s, req).state) && Grows(s, OpenRequest(s, req).state)
  {
    if !TagLive(s.windows, req.dataTypeId) {
      OpenedKeepsOnePerKind(s, req);
      OpenedKeepsChildLinked(s, req);
    }
  }

  lemma {:induction false} StepKeepsValid(s: State, m: Message, fuel: nat)
    requires Valid(s)
    ensures Valid(Step(s, m, fuel).state) && Grows(s, Step(s, m, fuel).state)
    decreases fuel, Size(m), 2
  {
    match m
    case None =>
    case Theme(_) =>
    case Scale(_) =>
    case TitleChanged(id, t) =>
    case Event(e) =>
      EventKeepsValid(s, e, fuel);
    case NewWindow(req) =>
      OpenRequestKeepsValid(s, req);
    case WindowMsg(wm) =>
      var b := BroadcastUpTo(s.windows, wm.msg, s.nextId);
      BroadcastKeepsLinks(s.windows, wm.msg, s.nextId);
      var s1 := s.(windows := b.windows);
      assert Valid(s1) by {
        forall k | k in s1.windows ensures s1.windows[k].dataTypeId == s.windows[k].dataTypeId
          && s1.windows[k].childId == s.windows[k].childId && s1.windows[k].parentId == s.windows[k].parentId
        {
        }
      }
      DerivedKeepsValid(s1, MultMessage(b.replies), fuel);
    case MultMessage(ms) =>
      StepSeqKeepsValid(s, ms, fuel);
    case Exit =>
  }

  lemma {:induction false} StepSeqKeepsValid(s: State, ms: seq<Message>, fuel: nat)
    requires Valid(s)
    ensures Valid(StepSeq(s, ms, fuel).state) && Grows(s, StepSeq(s, ms, fuel).state)
    decreases fuel, SizeSeq(ms), 3
  {
    if ms != [] {
      var o := StepSeq(s, ms[..|ms| - 1], fuel);
      StepSeqKeepsValid(s, ms[..|ms| - 1], fuel);
      StepKeepsValid(o.state, ms[|ms| - 1], fuel);
      GrowsTransitive(s, o.state, StepSeq(s, ms, fuel).state);
    }
  }

  lemma {:induction false} DerivedKeepsValid(s: State, m: Message, fuel: nat)
    requires Valid(s)
    ensures Valid(Derived(s, m, fuel).state) && Grows(s, Derived(s, m, fuel).state)
    decreases fuel, 0, 0
  {
    if fuel > 0 {
      StepKeepsValid(s, m, fuel - 1);
    }
  }

  lemma {:induction false} EventKeepsValid(s: State, e: EventMessage, fuel: nat)
    requires Valid(s)
    ensures Valid(StepEvent(s, e, fuel).state) && Grows(s, StepEvent(s, e, fuel).state)
    decreases fuel, Size(Event(e)), 1
  {
    match e
    case Close(id, r) =>
      CloseKeepsValid(s, id, r, fuel);
    case Closed(id, r) =>
      ClosedKeepsValid(s, id, r, fuel);
    case _ =>
      if e.id in s.windows {
        DerivedKeepsValid(s, Hook(s.windows[e.id].data, e), fuel);
      }
  }

  lemma {:induction false} CloseKeepsValid(s: State, id: WindowId, r: DialogResult, fuel: nat)
    requires Valid(s)
    ensures Valid(StepClose(s, id, r, fuel).state) && Grows(s, StepClose(s, id, r, fuel).state)
    decreases fuel, 1, 1
  {
    var parentId := ParentOf(s.windows, id);
    var callback := HookOf(s.windows, id);
    if parentId.Some? && parentId.value in s.windows && callback.Some? {
      DerivedKeepsValid(s, callback.value(WindowCloseCallbackData(parentId.value, r, s.windows[parentId.value].data)), fuel);
    }
    var hooked := CloseHook(s, id, r, fuel);
    ClosedKeepsValid(hooked.state, id, r, fuel);
    GrowsTransitive(s, hooked.state, StepClose(s, id, r, fuel).state);
  }

  /** The window map once window `id` has left: its live parent forgets its child, and
      `id` itself is gone. */
  function Detached(ws: map<WindowId, Window>, id: WindowId): map<WindowId, Window>
  {
    var parentId := ParentOf(ws, id);
    var ws1 := if parentId.Some? && parentId.value in ws
               then ws[parentId.value := ws[parentId.value].(childId := Option.None)]
               else ws;
    ws1 - {id}
  }

  /** `Closed(id, r)` has one effect on the state, whatever `id` is: the window leaves
      the map (no kind answers `on_window_closed`); and it yields exactly the exit command
      when the map is then empty, no command otherwise. */
  lemma ClosedOutcome(s: State, id: WindowId, r: DialogResult, fuel: nat)
    ensures StepClosed(s, id, r, fuel) ==
      Outcome(s.(windows := Detached(s.windows, id)),
              if |Detached(s.windows, id)| == 0 then [Terminate] else [])
  {
    var parentId := ParentOf(s.windows, id);
    var s1 := if parentId.Some? && parentId.value in s.windows
              then s.(windows := s.windows[parentId.value := s.windows[parentId.value].(childId := Option.None)])
              else s;
    if id in s1.windows {
      var m := Pages.OnWindowClosed(s1.windows[id].data, id, r);
      assert m == Message.None;
      DerivedNoneIsInert(s1, fuel);
      var s2 := s1.(windows := s1.windows - {id});
      assert s2.windows == Detached(s.windows, id);
      assert StepClosed(s, id, r, fuel) == if |s2.windows| == 0 then Outcome(s2, [Terminate]) else Outcome(s2, []);
    } else {
      assert s1.windows - {id} == s1.windows;
      assert s1.windows == Detached(s.windows, id);
    }
  }

  /** Detaching keeps the invariant: no link is left to the window that went. */
  lemma DetachedKeepsValid(s: State, id: WindowId)
    requires Valid(s)
    ensures Valid(s.(windows := Detached(s.windows, id)))
  {
    var parentId := ParentOf(s.windows, id);
    var ws1 := if parentId.Some? && parentId.value in s.windows
               then s.windows[parentId.value := s.windows[parentId.value].(childId := Option.None)]
               else s.windows;
    var ws := ws1 - {id};
    assert ws == Detached(s.windows, id);
    assert ws1.Keys == s.windows.Keys;
    assert forall k | k in ws1 :: ws1[k].parentId == s.windows[k].parentId && ws1[k].dataTypeId == s.windows[k].dataTypeId;
    assert ChildLinked(ws1);
    assert ChildLinked(ws) by {
      forall k | k in ws && ws[k].childId.Some?
        ensures ws[k].childId.value in ws && ws[ws[k].childId.value].parentId == Some(k)
      {
        var c := ws1[k].childId.value;
        if c == id {
          assert false;
        }
      }
    }
  }

  lemma ClosedKeepsValid(s: State, id: WindowId, r: DialogResult, fuel: nat)
    requires Valid(s)
    ensures Valid(StepClosed(s, id, r, fuel).state) && Grows(s, StepClosed(s, id, r, fuel).state)
  {
    ClosedOutcome(s, id, r, fuel);
    DetachedKeepsValid(s, id);
  }
}
