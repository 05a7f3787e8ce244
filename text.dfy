/** Python's `str.strip()` with no argument, as the text manifest readers
    apply it to every line after the fixed header lines. */
module Text {

  /** The characters `str.isspace()` accepts, which `strip()` removes from
      both ends. */
  predicate IsSpace(c: char)
  {
    var n := c as int;
    (0x09 <= n <= 0x0D) || (0x1C <= n <= 0x20) || n == 0x85 || n == 0xA0 || n == 0x1680 ||
    (0x2000 <= n <= 0x200A) || n == 0x2028 || n == 0x2029 || n == 0x202F || n == 0x205F || n == 0x3000
  }

  /** `s.lstrip()`. */
  function TrimStart(s: string): string
  {
    if s != [] && IsSpace(s[0]) then TrimStart(s[1..]) else s
  }

  /** `s.rstrip()`. */
  function TrimEnd(s: string): string
  {
    if s != [] && IsSpace(s[|s| - 1]) then TrimEnd(s[..|s| - 1]) else s
  }

  /** `lstrip` leaves the suffix that starts at the first character that is
      not a space. */
  lemma {:induction false} TrimStartCuts(s: string)
    ensures var t := TrimStart(s);
            |t| <= |s| && t == s[|s| - |t|..] && (t == [] || !IsSpace(t[0])) &&
            forall i :: 0 <= i < |s| - |t| ==> IsSpace(s[i])
  {
    hide IsSpace;
    if s != [] && IsSpace(s[0]) {
      TrimStartCuts(s[1..]);
      var t := TrimStart(s);
      assert t == TrimStart(s[1..]);
      assert s[1..][|s| - 1 - |t|..] == s[|s| - |t|..];
    }
  }

  /** `rstrip` leaves the prefix that ends at the last character that is not
      a space. */
  lemma {:induction false} TrimEndCuts(s: string)
    ensures var t := TrimEnd(s);
            |t| <= |s| && t == s[..|t|] && (t == [] || !IsSpace(t[|t| - 1])) &&
            forall i :: |t| <= i < |s| ==> IsSpace(s[i])
  {
    if s != [] && IsSpace(s[|s| - 1]) {
      TrimEndCuts(s[..|s| - 1]);
    }
  }

  /** `s.strip()`: nothing, or text that neither starts nor ends with a
      space, and never longer than the line. */
  function Strip(s: string): (r: string)
    ensures |r| <= |s|
    ensures r == [] || IsItem(r)
  {
    var u := TrimStart(s);
    TrimStartCuts(s);
    TrimEndCuts(u);
    TrimEnd(u)
  }

  /** Text that `strip()` leaves as it is and that is not empty: what a
      name, version or item line must hold to survive the round trip. */
  predicate IsItem(s: string)
  {
    s != [] && !IsSpace(s[0]) && !IsSpace(s[|s| - 1])
  }

  /** `strip()` is the piece of `s` left once the `i` leading spaces that
      `lstrip` cuts and the trailing spaces are gone. */
  lemma StripCuts(s: string)
    ensures |Strip(s)| <= |TrimStart(s)| <= |s|
    ensures var t, i := Strip(s), |s| - |TrimStart(s)|;
            s[i..i + |t|] == t &&
            (forall j :: 0 <= j < i ==> IsSpace(s[j])) &&
            (forall j :: i + |t| <= j < |s| ==> IsSpace(s[j]))
  {
    hide IsSpace, TrimStart, TrimEnd;
    var u := TrimStart(s);
    var t := TrimEnd(u);
    var i := |s| - |u|;
    TrimStartCuts(s);
    TrimEndCuts(u);
    assert s[i..i + |t|] == t by {
      assert s[i..] == u;
      assert u[..|t|] == t;
    }
    forall j | i + |t| <= j < |s|
      ensures IsSpace(s[j])
    {
      assert s[j] == u[j - i];
    }
  }

  /** `strip()` gives back text that starts and ends with something other
      than a space, whatever spaces are put around it. */
  lemma {:induction false} StripPadded(s: string, before: string, after: string)
    requires IsItem(s)
    requires forall j :: 0 <= j < |before| ==> IsSpace(before[j])
    requires forall j :: 0 <= j < |after| ==> IsSpace(after[j])
    ensures Strip(before + s + after) == s
  {
    hide IsSpace, TrimStart, TrimEnd;
    TrimStartPadded(s + after, before);
    assert before + s + after == before + (s + after);
    TrimEndPadded(s, after);
  }

  lemma {:induction false} TrimStartPadded(s: string, before: string)
    requires s != [] && !IsSpace(s[0])
    requires forall j :: 0 <= j < |before| ==> IsSpace(before[j])
    ensures TrimStart(before + s) == s
    decreases |before|
  {
    if before != [] {
      assert (before + s)[1..] == before[1..] + s;
      TrimStartPadded(s, before[1..]);
    }
  }

  lemma {:induction false} TrimEndPadded(s: string, after: string)
    requires s != [] && !IsSpace(s[|s| - 1])
    requires forall j :: 0 <= j < |after| ==> IsSpace(after[j])
    ensures TrimEnd(s + after) == s
    decreases |after|
  {
    if after != [] {
      var init := after[..|after| - 1];
      assert (s + after)[..|s + after| - 1] == s + init;
      TrimEndPadded(s, init);
    } else {
      assert s + after == s;
    }
  }

  /** A line as written back: the text and its newline. */
  lemma StripLine(s: string)
    requires IsItem(s)
    ensures Strip(s + "\n") == s
  {
    StripPadded(s, "", "\n");
    assert "" + s + "\n" == s + "\n";
  }

  /** A line past the end of the file, `""`, strips to nothing. */
  lemma StripEmpty()
    ensures Strip("") == ""
  {
    assert TrimStart("") == "";
  }

  /** Stripping twice is stripping once. */
  lemma StripIdempotent(s: string)
    ensures Strip(Strip(s)) == Strip(s)
  {
    var t := Strip(s);
    if t != [] {
      StripPadded(t, "", "");
      assert "" + t + "" == t;
    }
  }
}
