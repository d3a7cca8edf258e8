/** Expansion of `%` field codes in a desktop entry's Exec command, as the
    launcher does it before handing the command to the compositor.

    The launcher replaces every match of the regular expression `%(.)`
    (leftmost first, non-overlapping; `.` matches any character except a
    newline). A `%%` becomes a literal `%`; every other code, the
    recognised `f F u U i c k` included, becomes the empty string. A `%`
    with no following character, or followed by a newline, is no match and
    stays in the command. */
module FieldCodes {

  /** The replacement text for the field code `%c`. */
  function CodeReplacement(c: char): (r: string)
    ensures c == '%' ==> r == "%"
    ensures c != '%' ==> r == ""
  {
    match c
    case 'f' => ""
    case 'F' => ""
    case 'u' => ""
    case 'U' => ""
    case 'i' => ""
    case 'c' => ""
    case 'k' => ""
    case '%' => "%"
    case _ => ""
  }

  /** Whether a field-code match starts at the front of `s`. */
  predicate CodeAt(s: string)
  {
    |s| >= 2 && s[0] == '%' && s[1] != '\n'
  }

  /** The command with every field code replaced, scanning left to right. */
  function Expand(s: string): (r: string)
    ensures |r| <= |s|
  {
    if |s| == 0 then ""
    else if CodeAt(s) then CodeReplacement(s[1]) + Expand(s[2..])
    else [s[0]] + Expand(s[1..])
  }

  /** The escaped form of one character: `%` doubled, anything else itself. */
  function EscapeChar(c: char): (r: string)
    ensures Expand(r) == [c]
  {
    if c == '%' then "%%" else [c]
  }

  /** Escapes a literal command: every `%` is doubled, nothing else changes. */
  function Escape(t: string): (r: string)
    ensures |r| >= |t|
  {
    if |t| == 0 then "" else EscapeChar(t[0]) + Escape(t[1..])
  }

  /** `%%` at the front becomes one `%`. */
  lemma ExpandEscapedPercent(e: string)
    ensures Expand("%%" + e) == "%" + Expand(e)
  {
    var s := "%%" + e;
    assert CodeAt(s);
    assert s[2..] == e;
  }

  /** A character that does not start a field code is copied. */
  lemma ExpandOrdinaryChar(c: char, e: string)
    requires c != '%' || |e| == 0 || e[0] == '\n'
    ensures Expand([c] + e) == [c] + Expand(e)
  {
    var s := [c] + e;
    assert !CodeAt(s);
    assert s[1..] == e;
  }

  /** An escaped character expands to itself whatever follows it. */
  lemma ExpandEscapeChar(c: char, e: string)
    ensures Expand(EscapeChar(c) + e) == [c] + Expand(e)
  {
    if c == '%' {
      ExpandEscapedPercent(e);
    } else {
      ExpandOrdinaryChar(c, e);
    }
  }

  /** Expansion consumes an escaped prefix exactly, whatever follows it. */
  lemma {:induction false} ExpandEscapeAppend(t: string, rest: string)
    ensures Expand(Escape(t) + rest) == t + Expand(rest)
    decreases |t|
  {
    if |t| == 0 {
      assert Escape(t) + rest == rest;
    } else {
      var e := Escape(t[1..]) + rest;
      assert Expand(Escape(t) + rest) == [t[0]] + Expand(e) by {
        assert Escape(t) + rest == EscapeChar(t[0]) + e;
        ExpandEscapeChar(t[0], e);
      }
      assert Expand(e) == t[1..] + Expand(rest) by {
        ExpandEscapeAppend(t[1..], rest);
      }
      assert [t[0]] + (t[1..] + Expand(rest)) == t + Expand(rest);
    }
  }

  /** Round trip: expanding an escaped command gives the command back. */
  lemma {:induction false} ExpandEscape(t: string)
    ensures Expand(Escape(t)) == t
  {
    ExpandEscapeAppend(t, "");
    assert Escape(t) + "" == Escape(t);
  }

  /** A prefix without `%` is copied, and the rest is expanded on its own. */
  lemma {:induction false} ExpandPlainPrefix(a: string, rest: string)
    requires '%' !in a
    ensures Expand(a + rest) == a + Expand(rest)
    decreases |a|
  {
    if |a| == 0 {
      assert a + rest == rest;
    } else {
      var e := a[1..] + rest;
      assert a + rest == [a[0]] + e;
      assert a[0] in a;
      ExpandOrdinaryChar(a[0], e);
      assert forall c :: c in a[1..] ==> c in a;
      ExpandPlainPrefix(a[1..], rest);
      assert a == [a[0]] + a[1..];
    }
  }

  /** A command without `%` is left unchanged. */
  lemma {:induction false} ExpandWithoutPercent(s: string)
    requires '%' !in s
    ensures Expand(s) == s
  {
    ExpandPlainPrefix(s, "");
    assert s + "" == s;
  }

  /** A lone `%` at the end, or a `%` before a newline, is kept. */
  lemma LonePercentKept(a: string, rest: string)
    requires '%' !in a
    ensures Expand(a + "%") == a + "%"
    ensures Expand(a + "%\n" + rest) == a + "%\n" + Expand(rest)
  {
    ExpandPlainPrefix(a, "%");
    ExpandOrdinaryChar('%', "");
    assert "%" == ['%'] + "";
    ExpandPlainPrefix(a, "%\n" + rest);
    assert a + "%\n" + rest == a + ("%\n" + rest);
    ExpandOrdinaryChar('%', "\n" + rest);
    assert "%\n" + rest == ['%'] + ("\n" + rest);
    ExpandOrdinaryChar('\n', rest);
    assert "\n" + rest == ['\n'] + rest;
  }

  /** Every code except `%%` is dropped together with its `%`. */
  lemma CodeDropped(c: char, rest: string)
    requires c != '%' && c != '\n'
    ensures Expand(['%', c] + rest) == Expand(rest)
  {
    assert (['%', c] + rest)[2..] == rest;
  }

  /** A plain prefix, one field code, then anything: the prefix is copied,
      the code replaced and the rest expanded on its own. With `a` = "firefox "
      and `c` = 'u' the command runs as "firefox "; with `a` = "echo 100" and
      `c` = '%' as "echo 100%". */
  lemma ExpandOneCode(a: string, c: char, rest: string)
    requires '%' !in a && c != '\n'
    ensures Expand(a + ['%', c] + rest) == a + CodeReplacement(c) + Expand(rest)
  {
    var e := ['%', c] + rest;
    assert a + ['%', c] + rest == a + e;
    ExpandPlainPrefix(a, e);
    assert CodeAt(e) && e[1] == c && e[2..] == rest;
  }

  /** A URL placeholder in a desktop entry's command is dropped. */
  lemma ExpandDropsUrl()
    ensures Expand("firefox %u") == "firefox "
  {
    var a := "firefox ";
    assert "firefox %u" == a + ['%', 'u'] + "";
    assert '%' !in a;
    ExpandOneCode(a, 'u', "");
  }

  /** An escaped percent sign in a command is kept once. */
  lemma ExpandKeepsPercent()
    ensures Expand("echo 100%%") == "echo 100%"
  {
    var a := "echo 100";
    assert "echo 100%%" == a + ['%', '%'] + "";
    assert '%' !in a;
    ExpandOneCode(a, '%', "");
  }
}
