/** The shell: the launcher and the bar composed into one state, with the
    router that dispatches every incoming message to one of them. */
module Shell {
  import opened Runtime
  import opened Messages
  import Launcher
  import Bar

  datatype State = State(launcher: Launcher.State, bar: Bar.State)

  /** What a surface id is drawn as. */
  datatype Surface = LauncherView | BarView | EmptyView

  /** The shortcut registered with the desktop portal. */
  const ToggleShortcut: string := "ToggleLauncher"

  function WrapLauncher(m: LauncherMsg): ShellMessage
  {
    LauncherMessage(m)
  }

  function WrapBar(m: BarMsg): ShellMessage
  {
    BarMessage(m)
  }

  /** Start-up: a closed launcher and a bar on a fresh surface; only the bar
      asks for a surface. The id and active workspace come from outside. */
  function New(barId: WindowId, activeWorkspace: int): (r: (State, seq<Effect<ShellMessage>>))
    ensures r.0.launcher == Launcher.New()
    ensures r.0.bar == Bar.State(0, activeWorkspace, barId)
    ensures r.1 == [CreateSurface(Bar.BarSurface(barId))]
  {
    var (bar, barTasks) := Bar.New(barId, activeWorkspace);
    (State(Launcher.New(), bar), MapEffects(barTasks, WrapBar))
  }

  /** Which component draws surface `id`: the launcher is asked first, then
      the bar; an unknown id gets an empty element. */
  function View(s: State, id: WindowId): (r: Surface)
    ensures r == LauncherView <==> s.launcher.window == Some(id)
    ensures r == BarView <==> s.launcher.window != Some(id) && id == s.bar.id
    ensures r == EmptyView <==> s.launcher.window != Some(id) && id != s.bar.id
  {
    if s.launcher.window == Some(id) then LauncherView
    else if id == s.bar.id then BarView
    else EmptyView
  }

  /** The shell's message handler. The toggle shortcut becomes a launcher
      `Open`; a shell message boxed inside a component message is handled as
      if it had arrived directly; any other component message goes to that
      component only, and its follow-up messages are wrapped for it. */
  function Update(s: State, m: ShellMessage, env: Launcher.Env): (r: Outcome<State, ShellMessage>)
    ensures m.ShortcutActivated? && m.shortcut == ToggleShortcut ==> r == Next(s, [Emit(LauncherMessage(Open))])
    ensures (m.ShortcutActivated? && m.shortcut != ToggleShortcut) || m.ShortcutError? || m.ShortcutsSetup? ==>
              r == Next(s, [])
    ensures m.LauncherMessage? && !m.launcherMsg.LauncherShell? ==>
              var l := Launcher.Update(s.launcher, m.launcherMsg, env);
              && (r.Panicked? <==> l.Panicked?)
              && (r.Next? ==> r.state == s.(launcher := l.state) && r.effects == MapEffects(l.effects, WrapLauncher))
    ensures m.BarMessage? && !m.barMsg.BarShell? ==>
              var b := Bar.Update(s.bar, m.barMsg);
              r.Next? && r.state == s.(bar := b.state) && r.effects == MapEffects(b.effects, WrapBar)
    ensures r.Next? ==> r.state.bar.id == s.bar.id
    ensures Launcher.Inv(s.launcher) && r.Next? ==> Launcher.Inv(r.state.launcher)
    ensures r.Panicked? ==> s.launcher.selected >= |s.launcher.results|
    decreases m
  {
    match m
    case ShortcutActivated(name) =>
      if name == ToggleShortcut then Next(s, [Emit(LauncherMessage(Open))]) else Next(s, [])
    case ShortcutError(_) => Next(s, [])
    case ShortcutsSetup => Next(s, [])
    case LauncherMessage(lm) =>
      if lm.LauncherShell? then Update(s, lm.launcherInner, env)
      else
        (match Launcher.Update(s.launcher, lm, env)
         case Panicked => Panicked
         case Next(l, es) => Next(s.(launcher := l), MapEffects(es, WrapLauncher)))
    case BarMessage(bm) =>
      if bm.BarShell? then Update(s, bm.barInner, env)
      else
        var b := Bar.Update(s.bar, bm);
        Next(s.(bar := b.state), MapEffects(b.effects, WrapBar))
  }

  /** Boxes `m` inside component messages, innermost first: `true` wraps it
      in a launcher message, `false` in a bar message. */
  function Nest(m: ShellMessage, path: seq<bool>): ShellMessage
    decreases |path|
  {
    if |path| == 0 then m
    else
      var inner := Nest(m, path[..|path| - 1]);
      if path[|path| - 1] then LauncherMessage(LauncherShell(inner)) else BarMessage(BarShell(inner))
  }

  /** However deeply a shell message is boxed, it is handled as itself. */
  lemma {:induction false} NestedDispatch(s: State, m: ShellMessage, path: seq<bool>, env: Launcher.Env)
    ensures Update(s, Nest(m, path), env) == Update(s, m, env)
    decreases |path|
  {
    if |path| != 0 {
      NestedDispatch(s, m, path[..|path| - 1], env);
    }
  }

  /** A workspace change only moves the bar's active workspace; an open
      launcher stays open with its query and results. */
  lemma WorkspaceChangeKeepsLauncher(s: State, data: WorkspaceData, env: Launcher.Env)
    ensures Update(s, BarMessage(HyprlandEvent(WorkspaceChanged(data))), env)
         == Next(s.(bar := s.bar.(activeWorkspace := data.id)), [])
  {
  }

  /** From a closed launcher, the toggle shortcut twice opens it and then
      closes it again: the second `Open` only emits `Close`, and `Close`
      destroys the surface the first one created. */
  lemma ToggleTwice(s: State, env: Launcher.Env, env2: Launcher.Env)
    requires s.launcher.window.None?
    ensures Update(s, ShortcutActivated(ToggleShortcut), env) == Next(s, [Emit(LauncherMessage(Open))])
    ensures var o := Update(s, LauncherMessage(Open), env);
            && o.Next?
            && o.state.launcher.window == Some(env.freshId)
            && o.state.bar == s.bar
            && o.effects == [CreateSurface(Launcher.OverlaySurface(env.freshId))]
            && Update(o.state, ShortcutActivated(ToggleShortcut), env2) == Next(o.state, [Emit(LauncherMessage(Open))])
            && Update(o.state, LauncherMessage(Open), env2) == Next(o.state, [Emit(LauncherMessage(Close))])
            && var c := Update(o.state, LauncherMessage(Close), env2);
               && c.Next?
               && c.state.launcher.window.None?
               && c.state.bar == s.bar
               && c.effects == [DestroySurface(env.freshId)]
  {
    var o := Update(s, LauncherMessage(Open), env);
    assert o.effects == MapEffects([CreateSurface(Launcher.OverlaySurface(env.freshId))], WrapLauncher);
    assert Update(o.state, LauncherMessage(Open), env2).effects == MapEffects([Emit(Close)], WrapLauncher);
    var c := Update(o.state, LauncherMessage(Close), env2);
    assert c.effects == MapEffects([DestroySurface(env.freshId)], WrapLauncher);
  }
}
