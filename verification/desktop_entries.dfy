/** Parsed desktop entries and the visibility filter applied when the
    launcher rebuilds its application list. Finding and parsing the files is
    left to the caller: the filter receives the parse results in scan order. */
module DesktopEntries {
  import opened Runtime

  /** The fields of an Application entry the launcher reads. */
  datatype App = App(name: string, exec: Option<string>, noDisplay: Option<bool>, hidden: Option<bool>)

  datatype EntryType = Application(app: App) | NotApplication

  /** The outcome of parsing one `.desktop` file. */
  datatype ParseResult = Parsed(entry: EntryType) | ParseError

  /** An application is listed unless `NoDisplay` or `Hidden` is set to true;
      an absent key counts as false. */
  predicate Visible(a: App)
  {
    a.noDisplay != Some(true) && a.hidden != Some(true)
  }

  /** Whether a parse result contributes an application to the list. */
  predicate Listed(p: ParseResult)
  {
    p.Parsed? && p.entry.Application? && Visible(p.entry.app)
  }

  /** The visible Application entries, in scan order; parse errors and other
      entry types are dropped. */
  function VisibleApps(ps: seq<ParseResult>): (r: seq<App>)
    ensures |r| <= |ps|
    ensures forall a :: a in r ==> Visible(a) && Parsed(Application(a)) in ps
    ensures forall i :: 0 <= i < |ps| && Listed(ps[i]) ==> ps[i].entry.app in r
  {
    if |ps| == 0 then []
    else
      var rest := VisibleApps(ps[1..]);
      assert forall i :: 1 <= i < |ps| ==> ps[i] == ps[1..][i - 1];
      if Listed(ps[0]) then [ps[0].entry.app] + rest else rest
  }

  /** The filter works entry by entry: it commutes with concatenation, so the
      list keeps the scan order of the files. */
  lemma {:induction false} VisibleAppsAppend(a: seq<ParseResult>, b: seq<ParseResult>)
    ensures VisibleApps(a + b) == VisibleApps(a) + VisibleApps(b)
    decreases |a|
  {
    if |a| == 0 {
      assert a + b == b;
    } else {
      assert (a + b)[1..] == a[1..] + b;
      VisibleAppsAppend(a[1..], b);
    }
  }

  /** What a single parse result contributes. */
  lemma VisibleAppsSingle(p: ParseResult)
    ensures VisibleApps([p]) == if Listed(p) then [p.entry.app] else []
  {
  }
}
