/** The launcher session: an overlay that lists the installed applications
    best matching the typed query and runs the selected one.

    `Update` is the launcher's message handler as a pure transition. The
    outside world enters through `Env`: the similarity scorer, the id the
    windowing toolkit hands out for a new surface, and the parsed desktop
    entries found on disk when the overlay opens. */
module Launcher {
  import opened Runtime
  import opened Messages
  import opened DesktopEntries
  import Ranking
  import FieldCodes

  /** At most this many results are listed. */
  const MaxResults: nat := 5

  datatype State = State(
    window: Option<WindowId>,
    input: string,
    results: seq<App>,
    apps: seq<App>,
    selected: nat)

  /** `score(name, query)` is the fuzzy similarity of an application name and
      the query, both lower-cased; zero means "no match". */
  datatype Env = Env(score: (string, string) -> real, freshId: WindowId, entries: seq<ParseResult>)

  /** The launcher at start-up: closed, with nothing typed or listed. */
  function New(): (s: State)
    ensures s.window.None? && s.input == [] && s.results == [] && s.apps == [] && s.selected == 0
  {
    State(None, "", [], [], 0)
  }

  /** The state invariant kept by every transition: the result list is capped
      and the cursor is at most one past its end. */
  predicate Inv(s: State)
  {
    && |s.results| <= MaxResults
    && s.selected <= MaxResults
    && (|s.results| > 0 ==> s.selected <= |s.results|)
  }

  /** The view offers Submit (Enter in the text field) only when there are results. */
  predicate SubmitOffered(s: State)
  {
    |s.results| != 0
  }

  // ---------------------------------------------------------------------------
  // Ranking

  /** The ranking key of an application for query `q`. */
  function AppKey(score: (string, string) -> real, q: string): App -> real
  {
    (a: App) => score(a.name, q)
  }

  /** Every matching application, best score first; equal scores keep the
      order of `apps` (the sort is stable). */
  function Ranked(apps: seq<App>, q: string, score: (string, string) -> real): (r: seq<App>)
    ensures forall a :: a in r ==> a in apps && score(a.name, q) != 0.0
    ensures forall a :: a in apps && score(a.name, q) != 0.0 ==> a in r
    ensures forall i, j :: 0 <= i < j < |r| ==> score(r[i].name, q) >= score(r[j].name, q)
    ensures forall v :: Ranking.WithKey(r, AppKey(score, q), v)
                     == if v == 0.0 then [] else Ranking.WithKey(apps, AppKey(score, q), v)
  {
    var key := AppKey(score, q);
    var matching := Ranking.Nonzero(apps, key);
    var r := Ranking.SortDescending(matching, key);
    assert forall a :: key(a) == score(a.name, q);
    assert forall a :: a in r <==> a in matching by {
      Ranking.SameMembers(r, matching);
    }
    assert forall i, j :: 0 <= i < j < |r| ==> key(r[i]) >= key(r[j]);
    r
  }

  /** The listed results for a non-empty query: the first `MaxResults` of the
      ranking, so only matching applications, best score first. */
  function Shown(apps: seq<App>, q: string, score: (string, string) -> real): (r: seq<App>)
    ensures |r| <= MaxResults
    ensures r <= Ranked(apps, q, score)
    ensures |r| == Min(|Ranked(apps, q, score)|, MaxResults)
    ensures forall a :: a in r ==> a in apps && score(a.name, q) != 0.0
    ensures forall i, j :: 0 <= i < j < |r| ==> score(r[i].name, q) >= score(r[j].name, q)
  {
    var ranked := Ranked(apps, q, score);
    var r := ranked[..Min(|ranked|, MaxResults)];
    assert forall i :: 0 <= i < |r| ==> r[i] == ranked[i];
    r
  }

  /** Among equal scores the listed results keep the application-list order:
      those listed with any one score are a prefix of the applications with
      that score. */
  lemma ShownStable(apps: seq<App>, q: string, score: (string, string) -> real)
    ensures forall v :: Ranking.WithKey(Shown(apps, q, score), AppKey(score, q), v)
                     <= Ranking.WithKey(apps, AppKey(score, q), v)
  {
    var ranked := Ranked(apps, q, score);
    var shown := Shown(apps, q, score);
    var key := AppKey(score, q);
    assert shown == ranked[..|shown|];
    forall v ensures Ranking.WithKey(shown, key, v) <= Ranking.WithKey(apps, key, v) {
      Ranking.WithKeyPrefix(ranked, |shown|, key, v);
    }
  }

  /** A matching application is left out only when the list is full of
      results scoring at least as high. */
  lemma ShownComplete(apps: seq<App>, q: string, score: (string, string) -> real)
    ensures forall a :: a in apps && score(a.name, q) != 0.0 && a !in Shown(apps, q, score) ==>
              && |Shown(apps, q, score)| == MaxResults
              && forall b :: b in Shown(apps, q, score) ==> score(b.name, q) >= score(a.name, q)
  {
    var ranked := Ranked(apps, q, score);
    var shown := Shown(apps, q, score);
    assert shown == ranked[..|shown|];
    forall a | a in apps && score(a.name, q) != 0.0 && a !in shown
      ensures |shown| == MaxResults && forall b :: b in shown ==> score(b.name, q) >= score(a.name, q)
    {
      assert a in ranked;
      var j :| 0 <= j < |ranked| && ranked[j] == a;
      assert j >= |shown|;
      forall b | b in shown ensures score(b.name, q) >= score(a.name, q) {
        var i :| 0 <= i < |shown| && shown[i] == b;
        assert ranked[i] == b;
      }
    }
  }

  // ---------------------------------------------------------------------------
  // Message handlers

  /** `Input(text)`: store the text and re-rank. An empty text lists nothing
      and keeps the cursor; otherwise the cursor is bounded by the number of
      results, one past the last result included. */
  function OnInput(s: State, text: string, score: (string, string) -> real): (r: State)
    ensures r.input == text
    ensures r.window == s.window && r.apps == s.apps
    ensures |text| == 0 ==> r.results == [] && r.selected == s.selected
    ensures |text| != 0 ==> r.results == Shown(s.apps, text, score) && r.selected == Min(s.selected, |r.results|)
    ensures |r.results| <= MaxResults
  {
    if |text| == 0 then
      s.(input := text, results := [])
    else
      var shown := Shown(s.apps, text, score);
      s.(input := text, results := shown, selected := Min(s.selected, |shown|))
  }

  /** `Submit`: run the selected result's command with its field codes
      expanded, then close. Indexing past the results panics; a result
      without a command does nothing. */
  function OnSubmit(s: State): (r: Outcome<State, LauncherMsg>)
    ensures r.Panicked? <==> s.selected >= |s.results|
    ensures r.Next? ==> r.state == s
    ensures r.Next? && s.results[s.selected].exec.None? ==> r.effects == []
    ensures r.Next? && s.results[s.selected].exec.Some? ==>
              r.effects == [Exec(FieldCodes.Expand(s.results[s.selected].exec.value)), Emit(Close)]
  {
    if s.selected >= |s.results| then Panicked
    else
      match s.results[s.selected].exec
      case Some(command) => Next(s, [Exec(FieldCodes.Expand(command)), Emit(Close)])
      case None => Next(s, [])
  }

  /** The overlay surface: full-screen, topmost, on the active output, with
      exclusive keyboard focus. */
  function OverlaySurface(id: WindowId): (l: LayerSurface)
    ensures l.id == id && l.exclusiveKeyboard && l.layer == Top && l.anchor == AllEdges
  {
    LayerSurface(id, Top, ActiveOutput, true, AllEdges, -1, None)
  }

  /** `Open`: on an open launcher it only asks to close (the shortcut is a
      toggle); otherwise it opens a fresh session with a new surface and the
      visible applications. */
  function OnOpen(s: State, env: Env): (r: Outcome<State, LauncherMsg>)
    ensures r.Next?
    ensures s.window.Some? ==> r.state == s && r.effects == [Emit(Close)]
    ensures s.window.None? ==>
              && r.state.window == Some(env.freshId)
              && r.state.input == [] && r.state.results == [] && r.state.selected == 0
              && r.state.apps == VisibleApps(env.entries)
              && r.effects == [CreateSurface(OverlaySurface(env.freshId))]
  {
    if s.window.Some? then Next(s, [Emit(Close)])
    else
      Next(State(Some(env.freshId), "", [], VisibleApps(env.entries), 0),
           [CreateSurface(OverlaySurface(env.freshId))])
  }

  /** `Close`: destroy the surface if there is one. The query, results and
      application list are kept. */
  function OnClose(s: State): (r: Outcome<State, LauncherMsg>)
    ensures r.Next? && r.state.window.None?
    ensures r.state.input == s.input && r.state.results == s.results
    ensures r.state.apps == s.apps && r.state.selected == s.selected
    ensures s.window.Some? ==> r.effects == [DestroySurface(s.window.value)]
    ensures s.window.None? ==> r.effects == []
  {
    match s.window
    case Some(id) => Next(s.(window := None), [DestroySurface(id)])
    case None => Next(s, [])
  }

  /** `SelectionUp`: move the cursor up one, stopping at the first result. */
  function OnSelectionUp(s: State): (r: State)
    ensures s.window.None? || |s.results| == 0 ==> r == s
    ensures s.window.Some? && |s.results| > 0 ==>
              && r == s.(selected := r.selected)
              && r.selected < |s.results|
              && (s.selected <= |s.results| ==> r.selected == Max(s.selected - 1, 0))
  {
    if s.window.None? || |s.results| == 0 then s
    else s.(selected := Clamp(s.selected - 1, 0, |s.results| - 1))
  }

  /** `SelectionDown`: move the cursor down one, stopping at the last result. */
  function OnSelectionDown(s: State): (r: State)
    ensures s.window.None? || |s.results| == 0 ==> r == s
    ensures s.window.Some? && |s.results| > 0 ==>
              && r == s.(selected := r.selected)
              && r.selected < |s.results|
              && r.selected == Min(s.selected + 1, |s.results| - 1)
  {
    if s.window.None? || |s.results| == 0 then s
    else s.(selected := Clamp(s.selected + 1, 0, |s.results| - 1))
  }

  /** Moving down and then up again returns to the same entry, unless the
      cursor was already on the last result. */
  lemma SelectionDownThenUp(s: State)
    requires s.window.Some? && s.selected + 1 < |s.results|
    ensures OnSelectionUp(OnSelectionDown(s)) == s
  {
  }

  /** Moving up and then down again returns to the same entry, unless the
      cursor was already on the first result. */
  lemma SelectionUpThenDown(s: State)
    requires s.window.Some? && 0 < s.selected < |s.results|
    ensures OnSelectionDown(OnSelectionUp(s)) == s
  {
  }

  /** The launcher's message handler. A boxed shell message is ignored here
      (the shell unwraps it before it reaches the launcher). */
  function Update(s: State, m: LauncherMsg, env: Env): (r: Outcome<State, LauncherMsg>)
    ensures r.Panicked? <==> m.Submit? && s.selected >= |s.results|
    ensures Inv(s) && r.Next? ==> Inv(r.state)
    ensures r.Next? && !m.Open? ==> r.state.apps == s.apps
    ensures r.Next? && !m.Open? && !m.Close? ==> r.state.window == s.window
    ensures m.LauncherShell? ==> r == Next(s, [])
  {
    match m
    case Input(text) => Next(OnInput(s, text, env.score), [])
    case Submit => OnSubmit(s)
    case Open => OnOpen(s, env)
    case Close => OnClose(s)
    case SelectionUp => Next(OnSelectionUp(s), [])
    case SelectionDown => Next(OnSelectionDown(s), [])
    case LauncherShell(_) => Next(s, [])
  }

  /** Feeds messages to `Update` one after the other, collecting the effects;
      stops at the first panic. Follow-up messages in the effects are not fed
      back: the caller lists every message it wants delivered. */
  function Run(s: State, ms: seq<LauncherMsg>, env: Env): (r: Outcome<State, LauncherMsg>)
    ensures Inv(s) && r.Next? ==> Inv(r.state)
    ensures r.Next? && (forall i :: 0 <= i < |ms| ==> !ms[i].Open?) ==> r.state.apps == s.apps
    decreases |ms|
  {
    if |ms| == 0 then Next(s, [])
    else
      match Update(s, ms[0], env)
      case Panicked => Panicked
      case Next(s1, es1) =>
        match Run(s1, ms[1..], env)
        case Panicked => Panicked
        case Next(s2, es2) => Next(s2, es1 + es2)
  }

  // ---------------------------------------------------------------------------
  // The cursor re-clamp on Input (finding)

  /** What the traces below need: two visible applications `x` and `y`, a
      first query both match with `x` ranking at least as high, and a
      narrower second query only `x` matches. */
  predicate TraceInputs(score: (string, string) -> real, x: App, y: App, q1: string, q2: string)
  {
    && Visible(x) && Visible(y)
    && |q1| != 0 && |q2| != 0
    && score(x.name, q1) >= score(y.name, q1)
    && score(x.name, q1) != 0.0 && score(y.name, q1) != 0.0
    && score(x.name, q2) != 0.0 && score(y.name, q2) == 0.0
  }

  /** Two applications for a concrete instance. */
  const AppAb := App("ab", Some("ab"), None, None)
  const AppAc := App("ac", Some("ac"), None, None)

  /** Prefix matching, the entries "ab" and "ac", and the queries "a" and
      "ab" are such inputs. */
  lemma PrefixScorerQualifies()
    ensures TraceInputs((name: string, q: string) => if q <= name then 1.0 else 0.0, AppAb, AppAc, "a", "ab")
  {
    assert "a" <= AppAb.name && "a" <= AppAc.name && "ab" <= AppAb.name;
    assert !("ab" <= AppAc.name) by {
      assert AppAc.name[1] != 'b';
    }
  }

  /** The desktop entries for `x` and `y`, in that order. */
  function TraceEnv(score: (string, string) -> real, id: WindowId, x: App, y: App): Env
  {
    Env(score, id, [Parsed(Application(x)), Parsed(Application(y))])
  }

  /** Opening at start-up lists both applications, in entry order, on a new surface. */
  lemma TraceOpen(score: (string, string) -> real, id: WindowId, x: App, y: App)
    requires Visible(x) && Visible(y)
    ensures Update(New(), Open, TraceEnv(score, id, x, y))
         == Next(Opened(id, x, y), [CreateSurface(OverlaySurface(id))])
  {
    var ps := TraceEnv(score, id, x, y).entries;
    assert ps[1..] == [Parsed(Application(y))];
    assert ps[1..][1..] == [];
    assert Listed(ps[0]) && Listed(ps[1..][0]);
    assert VisibleApps(ps[1..]) == [y] + VisibleApps([]);
    assert VisibleApps(ps) == [x] + VisibleApps(ps[1..]);
    assert VisibleApps(ps) == [x, y];
    assert New().window.None?;
    assert OnOpen(New(), TraceEnv(score, id, x, y)).state == Opened(id, x, y);
  }

  /** Two matching applications, the first ranking at least as high, keep
      their order. */
  lemma RankedTwo(x: App, y: App, q: string, score: (string, string) -> real)
    requires score(x.name, q) >= score(y.name, q)
    requires score(x.name, q) != 0.0 && score(y.name, q) != 0.0
    ensures Ranked([x, y], q, score) == [x, y]
  {
    var key := AppKey(score, q);
    var xs := [x, y];
    assert xs[1..] == [y] && xs[1..][1..] == [];
    assert Ranking.Nonzero([y], key) == [y];
    assert Ranking.Nonzero(xs, key) == xs;
    assert Ranking.SortDescending([y], key) == [y];
    assert Ranking.SortDescending(xs, key) == Ranking.Insert(x, [y], key) == xs;
  }

  /** Of two applications only the first matching leaves it alone in the ranking. */
  lemma RankedFirstOnly(x: App, y: App, q: string, score: (string, string) -> real)
    requires score(x.name, q) != 0.0 && score(y.name, q) == 0.0
    ensures Ranked([x, y], q, score) == [x]
  {
    var key := AppKey(score, q);
    var xs := [x, y];
    assert xs[1..] == [y] && xs[1..][1..] == [];
    assert Ranking.Nonzero([y], key) == [];
    assert Ranking.Nonzero(xs, key) == [x];
    assert Ranking.SortDescending([x], key) == [x];
  }

  /** The states of the traces below: opened, a query typed, the cursor
      moved down, and the query narrowed with the cursor at `sel`. */
  function Opened(id: WindowId, x: App, y: App): State
  {
    State(Some(id), "", [], [x, y], 0)
  }

  function Typed(id: WindowId, x: App, y: App, q1: string, sel: nat): State
  {
    State(Some(id), q1, [x, y], [x, y], sel)
  }

  function Narrowed(id: WindowId, x: App, y: App, q2: string, sel: nat): State
  {
    State(Some(id), q2, [x], [x, y], sel)
  }

  lemma StepTypeBoth(score: (string, string) -> real, id: WindowId, x: App, y: App, q1: string, q2: string)
    requires TraceInputs(score, x, y, q1, q2)
    ensures OnInput(Opened(id, x, y), q1, score) == Typed(id, x, y, q1, 0)
  {
    RankedTwo(x, y, q1, score);
  }

  lemma StepDown(env: Env, id: WindowId, x: App, y: App, q1: string)
    ensures Update(Typed(id, x, y, q1, 0), SelectionDown, env) == Next(Typed(id, x, y, q1, 1), [])
  {
  }

  lemma StepNarrow(score: (string, string) -> real, id: WindowId, x: App, y: App, q1: string, q2: string)
    requires TraceInputs(score, x, y, q1, q2)
    ensures OnInput(Typed(id, x, y, q1, 1), q2, score) == Narrowed(id, x, y, q2, 1)
  {
    RankedFirstOnly(x, y, q2, score);
  }

  /** Open, type a query both applications match, move down to the second,
      narrow the query so only the first matches: one result is listed and
      the cursor rests one past it. */
  lemma TraceNarrows(score: (string, string) -> real, id: WindowId, x: App, y: App, q1: string, q2: string)
    requires TraceInputs(score, x, y, q1, q2)
    ensures Run(Opened(id, x, y), [Input(q1), SelectionDown, Input(q2)], TraceEnv(score, id, x, y))
         == Next(Narrowed(id, x, y, q2, 1), [])
  {
    var env := TraceEnv(score, id, x, y);
    var ms := [Input(q1), SelectionDown, Input(q2)];
    StepTypeBoth(score, id, x, y, q1, q2);
    StepDown(env, id, x, y, q1);
    StepNarrow(score, id, x, y, q1, q2);
    assert ms[1..] == [SelectionDown, Input(q2)];
    assert ms[1..][1..] == [Input(q2)];
    var none: seq<Effect<LauncherMsg>> := [];
    assert ms[1..][1..][1..] == [];
    assert Run(Narrowed(id, x, y, q2, 1), [], env) == Next(Narrowed(id, x, y, q2, 1), none);
    assert Update(Typed(id, x, y, q1, 1), Input(q2), env) == Next(Narrowed(id, x, y, q2, 1), none);
    assert none + none == none;
    assert Run(Typed(id, x, y, q1, 1), ms[1..][1..], env) == Next(Narrowed(id, x, y, q2, 1), none);
    assert Update(Typed(id, x, y, q1, 0), SelectionDown, env) == Next(Typed(id, x, y, q1, 1), none);
    assert Run(Typed(id, x, y, q1, 0), ms[1..], env) == Next(Narrowed(id, x, y, q2, 1), none);
    assert Update(Opened(id, x, y), Input(q1), env) == Next(Typed(id, x, y, q1, 0), none);
  }

  /** As written, `Input` bounds the cursor by the number of results rather
      than by the last index. After the trace of `TraceNarrows` the view
      offers Submit, since there is a result, and Submit indexes past it.
      `TraceOpen` shows that `Opened` is what `Open` produces at start-up. */
  lemma OffByOneReachesPanic(score: (string, string) -> real, id: WindowId, x: App, y: App, q1: string, q2: string)
    requires TraceInputs(score, x, y, q1, q2)
    ensures Inv(Narrowed(id, x, y, q2, 1)) && SubmitOffered(Narrowed(id, x, y, q2, 1))
    ensures Run(Opened(id, x, y), [Input(q1), SelectionDown, Input(q2), Submit], TraceEnv(score, id, x, y)) == Panicked
  {
    var env := TraceEnv(score, id, x, y);
    var ms := [Input(q1), SelectionDown, Input(q2), Submit];
    StepTypeBoth(score, id, x, y, q1, q2);
    StepDown(env, id, x, y, q1);
    StepNarrow(score, id, x, y, q1, q2);
    assert ms[1..] == [SelectionDown, Input(q2), Submit];
    assert ms[1..][1..] == [Input(q2), Submit];
    assert ms[1..][1..][1..] == [Submit];
    assert Update(Narrowed(id, x, y, q2, 1), Submit, env) == Panicked;
    assert Run(Narrowed(id, x, y, q2, 1), [Submit], env) == Panicked;
    assert Update(Typed(id, x, y, q1, 1), Input(q2), env) == Next(Narrowed(id, x, y, q2, 1), []);
    assert Run(Typed(id, x, y, q1, 1), ms[1..][1..], env) == Panicked;
    assert Run(Typed(id, x, y, q1, 0), ms[1..], env) == Panicked;
    assert Update(Opened(id, x, y), Input(q1), env) == Next(Typed(id, x, y, q1, 0), []);
  }

  /** The evidently intended re-clamp: onto the last result when there are results. */
  function ReclampCorrected(selected: nat, count: nat): (r: nat)
    ensures count > 0 ==> r < count
    ensures r <= selected
    ensures selected < count ==> r == selected
  {
    if count == 0 then 0 else Min(selected, count - 1)
  }

  /** The invariant the corrected launcher keeps: a non-empty result list
      always has the cursor on one of its entries. */
  predicate SafeInv(s: State)
  {
    |s.results| <= MaxResults && (|s.results| > 0 ==> s.selected < |s.results|)
  }

  /** `Update` with the corrected re-clamp on `Input`. From a `SafeInv` state
      no message the view can send panics, and `SafeInv` is kept. */
  function UpdateCorrected(s: State, m: LauncherMsg, env: Env): (r: Outcome<State, LauncherMsg>)
    ensures SafeInv(s) && (m.Submit? ==> SubmitOffered(s)) ==> r.Next? && SafeInv(r.state)
    ensures !m.Input? ==> r == Update(s, m, env)
    ensures m.Input? ==> r.Next? && r.effects == []
                         && r.state.(selected := s.selected) == OnInput(s, m.text, env.score).(selected := s.selected)
  {
    if m.Input? then
      var t := OnInput(s, m.text, env.score);
      Next(if |m.text| == 0 then t else t.(selected := ReclampCorrected(s.selected, |t.results|)), [])
    else Update(s, m, env)
  }

  /** The trace of `OffByOneReachesPanic` under the corrected re-clamp ends
      with the cursor on the one result, and Submit runs its command. */
  lemma CorrectedTraceSubmits(score: (string, string) -> real, id: WindowId, x: App, y: App, q1: string, q2: string)
    requires TraceInputs(score, x, y, q1, q2)
    ensures UpdateCorrected(New(), Open, TraceEnv(score, id, x, y))
         == Next(Opened(id, x, y), [CreateSurface(OverlaySurface(id))])
    ensures UpdateCorrected(Opened(id, x, y), Input(q1), TraceEnv(score, id, x, y))
         == Next(Typed(id, x, y, q1, 0), [])
    ensures UpdateCorrected(Typed(id, x, y, q1, 0), SelectionDown, TraceEnv(score, id, x, y))
         == Next(Typed(id, x, y, q1, 1), [])
    ensures UpdateCorrected(Typed(id, x, y, q1, 1), Input(q2), TraceEnv(score, id, x, y))
         == Next(Narrowed(id, x, y, q2, 0), [])
    ensures UpdateCorrected(Narrowed(id, x, y, q2, 0), Submit, TraceEnv(score, id, x, y))
         == Next(Narrowed(id, x, y, q2, 0),
                 if x.exec.Some? then [Exec(FieldCodes.Expand(x.exec.value)), Emit(Close)] else [])
  {
    TraceOpen(score, id, x, y);
    StepTypeBoth(score, id, x, y, q1, q2);
    StepDown(TraceEnv(score, id, x, y), id, x, y, q1);
    StepNarrow(score, id, x, y, q1, q2);
  }

  // ---------------------------------------------------------------------------
  // Input events

  datatype Key = Escape | ArrowUp | ArrowDown | OtherKey(name: string)
  datatype MouseButton = Left | Right | Middle | OtherButton
  datatype Event = KeyPressed(key: Key) | MousePressed(button: MouseButton) | OtherEvent
  /** Whether a widget already handled the event. */
  datatype Status = Ignored | Captured

  /** The launcher's event subscription: Escape and a left click no widget
      handled close it, the arrow keys move the cursor. Key presses map
      whatever their status. */
  function KeyMapping(e: Event, status: Status): (r: Option<LauncherMsg>)
    ensures r == Some(Close) <==> e == KeyPressed(Escape) || (e == MousePressed(Left) && status == Ignored)
    ensures r == Some(SelectionUp) <==> e == KeyPressed(ArrowUp)
    ensures r == Some(SelectionDown) <==> e == KeyPressed(ArrowDown)
    ensures r.None? || r == Some(Close) || r == Some(SelectionUp) || r == Some(SelectionDown)
  {
    match e
    case KeyPressed(Escape) => Some(Close)
    case KeyPressed(ArrowUp) => Some(SelectionUp)
    case KeyPressed(ArrowDown) => Some(SelectionDown)
    case KeyPressed(_) => None
    case MousePressed(Left) => if status == Ignored then Some(Close) else None
    case _ => None
  }
}
