/** The messages of the shell, the launcher and the bar. The launcher's and the
    bar's messages can each carry a boxed shell message, so the three types are
    mutually recursive and live in one module. */
module Messages {
  import opened Runtime

  /** Which workspace the bar asks the compositor to switch to. */
  datatype WorkspaceIdentifier =
    | Id(id: int)
    | Relative(offset: int)
    | RelativeMonitor(offset: int)
    | RelativeMonitorIncludingEmpty(offset: int)
    | RelativeOpen(offset: int)
    | Previous
    | Empty
    | Name(name: string)
    | Special(special: Option<string>)

  /** A compositor event; only workspace changes are told apart. */
  datatype HyprEvent = WorkspaceChanged(workspace: WorkspaceData) | OtherHyprEvent(kind: string)

  datatype WorkspaceData = WorkspaceData(id: int, name: string)

  datatype ShellMessage =
    | ShortcutError(error: string)
    | ShortcutActivated(shortcut: string)
    | ShortcutsSetup
    | LauncherMessage(launcherMsg: LauncherMsg)
    | BarMessage(barMsg: BarMsg)

  datatype LauncherMsg =
    | Input(text: string)
    | Submit
    | Open
    | Close
    | SelectionUp
    | SelectionDown
    | LauncherShell(launcherInner: ShellMessage)

  /** `TimeTick` carries the timer's instant, kept opaque. */
  datatype BarMsg =
    | BarShell(barInner: ShellMessage)
    | TimeTick(instant: int)
    | ButtonPressed
    | OpenBlueman
    | HyprlandEvent(event: HyprEvent)
    | HyprlandError
    | SetWorkspace(workspace: WorkspaceIdentifier)
}
