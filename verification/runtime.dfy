/** Stand-ins for the windowing runtime and compositor IPC the shell talks to.
    A transition never performs I/O: it returns the follow-up requests as
    `Effect` values and the host executes them. */
module Runtime {

  datatype Option<+T> = None | Some(value: T)

  /** An opaque surface id, as handed out by the windowing toolkit. */
  type WindowId = nat

  datatype Layer = Top | Bottom
  datatype Output = ActiveOutput | AllOutputs
  datatype Anchor = AllEdges | TopLeftRight

  /** The settings of a layer-shell surface creation request. */
  datatype LayerSurface = LayerSurface(
    id: WindowId,
    layer: Layer,
    output: Output,
    exclusiveKeyboard: bool,
    anchor: Anchor,
    exclusiveZone: int,
    height: Option<nat>)

  /** The workspace argument of the compositor's "switch workspace" dispatch. */
  datatype WorkspaceTarget = TargetId(id: int) | TargetName(name: string) | TargetEmpty

  /** A follow-up request returned by a transition. `Emit` feeds a message back
      into the update loop; the others are executed by the host. */
  datatype Effect<+M> =
    | Emit(msg: M)
    | CreateSurface(surface: LayerSurface)
    | DestroySurface(id: WindowId)
    | Exec(command: string)
    | SwitchWorkspace(target: WorkspaceTarget)

  /** The result of one transition: the next state and its effects, or a
      runtime panic that aborts the program. */
  datatype Outcome<+S, +M> = Next(state: S, effects: seq<Effect<M>>) | Panicked

  /** Re-tags the messages an effect feeds back; other effects pass through. */
  function MapEffect<A, B>(e: Effect<A>, f: A -> B): Effect<B>
  {
    match e
    case Emit(m) => Emit(f(m))
    case CreateSurface(s) => CreateSurface(s)
    case DestroySurface(id) => DestroySurface(id)
    case Exec(c) => Exec(c)
    case SwitchWorkspace(t) => SwitchWorkspace(t)
  }

  function MapEffects<A, B>(es: seq<Effect<A>>, f: A -> B): seq<Effect<B>>
  {
    seq(|es|, i requires 0 <= i < |es| => MapEffect(es[i], f))
  }

  function Min(a: int, b: int): int
  {
    if a <= b then a else b
  }

  function Max(a: int, b: int): int
  {
    if a >= b then a else b
  }

  /** `x.clamp(lo, hi)`: Rust panics when `lo > hi`, which the callers rule out. */
  function Clamp(x: int, lo: int, hi: int): (r: int)
    requires lo <= hi
    ensures lo <= r <= hi
    ensures lo <= x <= hi ==> r == x
    ensures x < lo ==> r == lo
    ensures x > hi ==> r == hi
  {
    Max(lo, Min(x, hi))
  }
}
