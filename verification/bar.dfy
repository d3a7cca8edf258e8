/** The status bar: a permanent surface that tracks the compositor's active
    workspace and offers a button per workspace to switch to it. */
module Bar {
  import opened Runtime
  import opened Messages
  import Ranking

  /** `count` is the press counter shown at the left of the bar. */
  datatype State = State(count: nat, activeWorkspace: int, id: WindowId)

  /** The bar surface: a 30-pixel strip along the top edge of every output,
      below normal windows, reserving its height. */
  function BarSurface(id: WindowId): (l: LayerSurface)
    ensures l.id == id && l.layer == Bottom && l.output == AllOutputs && l.anchor == TopLeftRight
    ensures !l.exclusiveKeyboard && l.exclusiveZone == 30 && l.height == Some(30)
  {
    LayerSurface(id, Bottom, AllOutputs, false, TopLeftRight, 30, Some(30))
  }

  /** Start-up: a fresh surface id and the active workspace, both read from
      the outside world, and one surface creation request. */
  function New(id: WindowId, activeWorkspace: int): (r: (State, seq<Effect<BarMsg>>))
    ensures r.0.id == id && r.0.count == 0 && r.0.activeWorkspace == activeWorkspace
    ensures r.1 == [CreateSurface(BarSurface(id))]
  {
    (State(0, activeWorkspace, id), [CreateSurface(BarSurface(id))])
  }

  /** The compositor's workspace argument for a requested identifier: only an
      id or a name is passed on, anything else asks for an empty workspace. */
  function DispatchTarget(w: WorkspaceIdentifier): (t: WorkspaceTarget)
    ensures w.Id? <==> t.TargetId?
    ensures w.Name? <==> t.TargetName?
    ensures w.Id? ==> t.id == w.id
    ensures w.Name? ==> t.name == w.name
  {
    match w
    case Id(n) => TargetId(n)
    case Name(s) => TargetName(s)
    case _ => TargetEmpty
  }

  /** The bar's message handler. It never touches the surface id, and only a
      workspace-change event moves the active workspace. */
  function Update(s: State, m: BarMsg): (r: Outcome<State, BarMsg>)
    ensures r.Next?
    ensures r.state.id == s.id
    ensures m.ButtonPressed? ==> r.state == s.(count := s.count + 1) && r.effects == []
    ensures m.HyprlandEvent? && m.event.WorkspaceChanged? ==>
              r.state == s.(activeWorkspace := m.event.workspace.id) && r.effects == []
    ensures !m.ButtonPressed? && !(m.HyprlandEvent? && m.event.WorkspaceChanged?) ==> r.state == s
    ensures m.SetWorkspace? ==> r.effects == [SwitchWorkspace(DispatchTarget(m.workspace))]
    ensures m.OpenBlueman? ==> r.effects == [Exec("blueman-manager")]
    ensures m.TimeTick? || m.HyprlandError? || m.BarShell? || m.HyprlandEvent? ==> r.effects == []
  {
    match m
    case TimeTick(_) => Next(s, [])
    case ButtonPressed => Next(s.(count := s.count + 1), [])
    case OpenBlueman => Next(s, [Exec("blueman-manager")])
    case SetWorkspace(w) => Next(s, [SwitchWorkspace(DispatchTarget(w))])
    case HyprlandError => Next(s, [])
    case HyprlandEvent(e) =>
      (match e
       case WorkspaceChanged(data) => Next(s.(activeWorkspace := data.id), [])
       case OtherHyprEvent(_) => Next(s, []))
    case BarShell(_) => Next(s, [])
  }

  /** The compositor's event stream as bar messages: an event or a read error. */
  function FromEventStream(item: Option<HyprEvent>): (m: BarMsg)
    ensures item.Some? ==> m == HyprlandEvent(item.value)
    ensures item.None? ==> m == HyprlandError
  {
    match item
    case Some(e) => HyprlandEvent(e)
    case None => HyprlandError
  }

  /** Feeds messages to `Update` one after the other, collecting the effects. */
  function Run(s: State, ms: seq<BarMsg>): (r: (State, seq<Effect<BarMsg>>))
    ensures r.0.id == s.id
    decreases |ms|
  {
    if |ms| == 0 then (s, [])
    else
      var o := Update(s, ms[0]);
      var rest := Run(o.state, ms[1..]);
      (rest.0, o.effects + rest.1)
  }

  /** The number of button presses among `ms`. */
  function Presses(ms: seq<BarMsg>): nat
  {
    if |ms| == 0 then 0 else (if ms[0].ButtonPressed? then 1 else 0) + Presses(ms[1..])
  }

  /** The workspace the last workspace-change event in `ms` reports, if any. */
  function LastWorkspace(ms: seq<BarMsg>): Option<int>
    decreases |ms|
  {
    if |ms| == 0 then None
    else
      var last := ms[|ms| - 1];
      if last.HyprlandEvent? && last.event.WorkspaceChanged? then Some(last.event.workspace.id)
      else LastWorkspace(ms[..|ms| - 1])
  }

  /** Running `a` then `b` is running `a + b`. */
  lemma {:induction false} RunAppend(s: State, a: seq<BarMsg>, b: seq<BarMsg>)
    ensures Run(s, a + b).0 == Run(Run(s, a).0, b).0
    ensures Run(s, a + b).1 == Run(s, a).1 + Run(Run(s, a).0, b).1
    decreases |a|
  {
    if |a| == 0 {
      assert a + b == b;
    } else {
      assert (a + b)[1..] == a[1..] + b;
      var o := Update(s, a[0]);
      assert (a + b)[0] == a[0];
      RunAppend(o.state, a[1..], b);
      var mid := Run(o.state, a[1..]);
      var tail := Run(mid.0, b);
      assert Run(s, a) == (mid.0, o.effects + mid.1);
      assert Run(s, a + b) == (tail.0, o.effects + (mid.1 + tail.1));
      assert o.effects + (mid.1 + tail.1) == (o.effects + mid.1) + tail.1;
    }
  }

  /** The counter goes up by exactly the number of presses. */
  lemma {:induction false} RunCountsPresses(s: State, ms: seq<BarMsg>)
    ensures Run(s, ms).0.count == s.count + Presses(ms)
    decreases |ms|
  {
    if |ms| != 0 {
      RunCountsPresses(Update(s, ms[0]).state, ms[1..]);
    }
  }

  /** The active workspace is the one the last workspace-change event
      reported, or the starting one if no such event arrived. */
  lemma {:induction false} RunTracksLastWorkspace(s: State, ms: seq<BarMsg>)
    ensures Run(s, ms).0.activeWorkspace
         == match LastWorkspace(ms) case Some(w) => w case None => s.activeWorkspace
    decreases |ms|
  {
    if |ms| != 0 {
      var init := ms[..|ms| - 1];
      var last := ms[|ms| - 1];
      assert ms == init + [last];
      RunAppend(s, init, [last]);
      RunTracksLastWorkspace(s, init);
      var mid := Run(s, init).0;
      assert Run(mid, [last]).0 == Update(mid, last).state;
    }
  }

  // ---------------------------------------------------------------------------
  // Workspace buttons

  /** A workspace as the compositor lists it. */
  datatype Workspace = Workspace(id: int, name: string)

  /** A button: its caption and the message a press sends (none if disabled). */
  datatype Button = Button(caption: string, onPress: Option<BarMsg>)

  function IdKey(): Workspace -> real
  {
    (w: Workspace) => -(w.id as real)
  }

  /** The workspaces in ascending id order; the sort is stable. */
  function SortedWorkspaces(ws: seq<Workspace>): (r: seq<Workspace>)
    ensures multiset(r) == multiset(ws)
    ensures forall i, j :: 0 <= i < j < |r| ==> r[i].id <= r[j].id
    ensures forall v :: Ranking.WithKey(r, IdKey(), v) == Ranking.WithKey(ws, IdKey(), v)
  {
    var r := Ranking.SortDescending(ws, IdKey());
    assert forall i, j :: 0 <= i < j < |r| ==> IdKey()(r[i]) >= IdKey()(r[j]);
    r
  }

  /** One button per workspace, in ascending id order; the active workspace's
      button is disabled, every other one asks to switch to that workspace by
      name. */
  function Buttons(s: State, ws: seq<Workspace>): (r: seq<Button>)
    ensures |r| == |ws|
    ensures forall i :: 0 <= i < |r| ==> r[i].caption == SortedWorkspaces(ws)[i].name
    ensures forall i :: 0 <= i < |r| ==>
              (r[i].onPress.Some? <==> SortedWorkspaces(ws)[i].id != s.activeWorkspace)
    ensures forall i :: 0 <= i < |r| && r[i].onPress.Some? ==>
              r[i].onPress.value == SetWorkspace(Name(r[i].caption))
  {
    var sorted := SortedWorkspaces(ws);
    assert |sorted| == |multiset(sorted)| == |ws|;
    seq(|sorted|, i requires 0 <= i < |sorted| =>
      Button(sorted[i].name,
             if sorted[i].id != s.activeWorkspace then Some(SetWorkspace(Name(sorted[i].name))) else None))
  }

  /** Pressing an enabled button switches the compositor to that workspace by name. */
  lemma ButtonPressSwitches(s: State, ws: seq<Workspace>, i: nat)
    requires i < |ws|
    requires Buttons(s, ws)[i].onPress.Some?
    ensures Update(s, Buttons(s, ws)[i].onPress.value)
         == Next(s, [SwitchWorkspace(TargetName(SortedWorkspaces(ws)[i].name))])
  {
  }
}
