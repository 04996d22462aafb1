/**
 * The guestbook's text cleaners. `sanitize` (for names) removes every C0
 * control character and DEL, turns each run of whitespace into one space,
 * trims, and keeps at most 24 characters. `sanitizeMessage` removes the same
 * controls except TAB, LF and CR, trims, and keeps at most 160 characters.
 *
 * "Whitespace" is JavaScript's: the characters `\s` matches and `trim`
 * removes, which are the same set.
 */
module Sanitize {
  import opened Optional

  /** U+0000 to U+001F and U+007F. */
  predicate IsControl(c: char) {
    c as int <= 0x1F || c as int == 0x7F
  }

  /** The controls a message loses: all of `IsControl` except TAB, LF and CR. */
  predicate IsMessageControl(c: char) {
    IsControl(c) && c != '\t' && c != '\n' && c != '\r'
  }

  /** JavaScript's WhiteSpace and LineTerminator characters. */
  predicate IsSpace(c: char) {
    var n := c as int;
    || (0x09 <= n <= 0x0D) || n == 0x20 || n == 0xA0 || n == 0x1680
    || (0x2000 <= n <= 0x200A) || n == 0x2028 || n == 0x2029 || n == 0x202F
    || n == 0x205F || n == 0x3000 || n == 0xFEFF
  }

  /** Which controls a cleaner removes: all of them (names), or all but TAB, LF and CR (messages). */
  datatype Strip = Controls | MessageControls

  predicate Drops(k: Strip, c: char) {
    match k
    case Controls => IsControl(c)
    case MessageControls => IsMessageControl(c)
  }

  predicate NoneOf(s: string, p: Strip) {
    forall i :: 0 <= i < |s| ==> !Drops(p, s[i])
  }

  /** The only whitespace character is the plain space. */
  predicate PlainSpaces(s: string) {
    forall i :: 0 <= i < |s| ==> IsSpace(s[i]) ==> s[i] == ' '
  }

  predicate NoDoubleSpace(s: string) {
    forall i :: 0 < i < |s| ==> s[i - 1] != ' ' || s[i] != ' '
  }

  predicate Blank(s: string) {
    forall i :: 0 <= i < |s| ==> IsSpace(s[i])
  }

  predicate Trimmed(s: string) {
    |s| > 0 ==> !IsSpace(s[0]) && !IsSpace(s[|s| - 1])
  }

  /** `s.replace(/[...]/g, '')`: every character `drop` matches is removed, the rest kept in order. */
  function Without(s: string, drop: Strip): (r: string)
    ensures NoneOf(r, drop) && |r| <= |s|
    ensures forall c :: c in r <==> c in s && !Drops(drop, c)
    decreases |s|
  {
    if s == [] then [] else (if Drops(drop, s[0]) then [] else [s[0]]) + Without(s[1..], drop)
  }

  /**
   * `s.replace(/\s+/g, ' ')`: each maximal run of whitespace becomes one
   * space. `inRun` says the character before `s` was whitespace.
   */
  function CollapseFrom(s: string, inRun: bool): string
    decreases |s|
  {
    if s == [] then []
    else if IsSpace(s[0]) then (if inRun then CollapseFrom(s[1..], true) else [' '] + CollapseFrom(s[1..], true))
    else [s[0]] + CollapseFrom(s[1..], false)
  }

  /** Leading whitespace removed: what is left is a suffix and does not start with whitespace. */
  function TrimStart(s: string): (r: string)
    ensures |r| <= |s| && r == s[|s| - |r|..]
    ensures |r| > 0 ==> !IsSpace(r[0])
    ensures forall i :: 0 <= i < |s| - |r| ==> IsSpace(s[i])
    decreases |s|
  {
    if |s| > 0 && IsSpace(s[0]) then TrimStart(s[1..]) else s
  }

  /** Trailing whitespace removed: what is left is a prefix and does not end with whitespace. */
  function TrimEnd(s: string): (r: string)
    ensures |r| <= |s| && r == s[..|r|]
    ensures |r| > 0 ==> !IsSpace(r[|r| - 1])
    ensures forall i :: |r| <= i < |s| ==> IsSpace(s[i])
    decreases |s|
  {
    if |s| > 0 && IsSpace(s[|s| - 1]) then TrimEnd(s[..|s| - 1]) else s
  }

  /** How many characters of leading whitespace `s` has. */
  function Lead(s: string): nat {
    |s| - |TrimStart(s)|
  }

  /** `s.trim()`: a slice of `s` that neither starts nor ends with whitespace. */
  function Trim(s: string): (r: string)
    ensures Lead(s) + |r| <= |s| && r == s[Lead(s)..Lead(s) + |r|]
    ensures Trimmed(r)
    ensures forall i :: 0 <= i < Lead(s) ==> IsSpace(s[i])
    ensures forall i :: Lead(s) + |r| <= i < |s| ==> IsSpace(s[i])
  {
    var t := TrimStart(s);
    var r := TrimEnd(t);
    assert r == s[|s| - |t|..|s| - |t| + |r|];
    r
  }

  /** `s.slice(0, n)`. */
  function Take<T>(s: seq<T>, n: nat): (r: seq<T>)
    ensures |r| == (if |s| < n then |s| else n) && r == s[..|r|]
  {
    if |s| <= n then s else s[..n]
  }

  /** A slice of text without some kind of character has none either. */
  lemma SliceNone(s: string, a: nat, b: nat, p: Strip)
    requires a <= b <= |s| && NoneOf(s, p)
    ensures NoneOf(s[a..b], p)
  {
    assert forall i :: 0 <= i < b - a ==> s[a..b][i] == s[a + i];
  }

  /** Every property that holds character by character, or pair by pair, holds of a slice. */
  lemma SliceKeeps(s: string, a: nat, b: nat, p: Strip)
    requires a <= b <= |s|
    ensures NoneOf(s, p) ==> NoneOf(s[a..b], p)
    ensures PlainSpaces(s) ==> PlainSpaces(s[a..b])
    ensures NoDoubleSpace(s) ==> NoDoubleSpace(s[a..b])
  {
    var t := s[a..b];
    assert forall i :: 0 <= i < |t| ==> t[i] == s[a + i];
  }

  /** The non-whitespace characters of `s`, in order. */
  function Solid(s: string): string
    decreases |s|
  {
    if s == [] then [] else (if IsSpace(s[0]) then [] else [s[0]]) + Solid(s[1..])
  }

  /**
   * Collapsing keeps the absence of controls and every non-whitespace
   * character in order, leaves only plain single spaces, and never starts a
   * run twice.
   */
  lemma {:induction false} CollapseShape(s: string, inRun: bool)
    ensures Solid(CollapseFrom(s, inRun)) == Solid(s)
    ensures NoneOf(s, Controls) ==> NoneOf(CollapseFrom(s, inRun), Controls)
    ensures PlainSpaces(CollapseFrom(s, inRun)) && NoDoubleSpace(CollapseFrom(s, inRun))
    ensures inRun && |CollapseFrom(s, inRun)| > 0 ==> CollapseFrom(s, inRun)[0] != ' '
    decreases |s|
  {
    if s != [] {
      var rest := CollapseFrom(s[1..], IsSpace(s[0]));
      CollapseShape(s[1..], IsSpace(s[0]));
      assert NoneOf(s, Controls) ==> NoneOf(s[1..], Controls) by {
        assert forall i :: 0 <= i < |s[1..]| ==> s[1..][i] == s[i + 1];
      }
      if IsSpace(s[0]) && !inRun {
        var r := [' '] + rest;
        assert forall i :: 0 < i < |r| ==> r[i] == rest[i - 1];
        assert r[1..] == rest;
      } else if !IsSpace(s[0]) {
        var r := [s[0]] + rest;
        assert forall i :: 0 < i < |r| ==> r[i] == rest[i - 1];
        assert r[1..] == rest;
      }
    }
  }

  /** `s.replace(/\s+/g, ' ')` from the start of the text. */
  function Collapsed(s: string): (r: string)
    ensures Solid(r) == Solid(s)
    ensures NoneOf(s, Controls) ==> NoneOf(r, Controls)
    ensures PlainSpaces(r) && NoDoubleSpace(r)
  {
    CollapseShape(s, false);
    CollapseFrom(s, false)
  }

  /** Whether the text before `t` ends in whitespace, after `a` has been read from state `inRun`. */
  function RunAfter(a: string, inRun: bool): bool {
    if a == [] then inRun else IsSpace(a[|a| - 1])
  }

  /** Collapsing works left to right: a prefix collapses on its own and hands on whether it ended in a run. */
  lemma {:induction false} CollapseAppend(a: string, t: string, inRun: bool)
    ensures CollapseFrom(a + t, inRun) == CollapseFrom(a, inRun) + CollapseFrom(t, RunAfter(a, inRun))
    decreases |a|
  {
    if a == [] {
      assert a + t == t;
    } else {
      assert (a + t)[0] == a[0] && (a + t)[1..] == a[1..] + t;
      CollapseAppend(a[1..], t, IsSpace(a[0]));
      if |a| > 1 {
        assert a[1..][|a[1..]| - 1] == a[|a| - 1];
      }
    }
  }

  /** A non-empty run of whitespace collapses to one space, or to nothing when it continues a run. */
  lemma {:induction false} CollapseBlank(w: string, inRun: bool)
    requires Blank(w) && |w| > 0
    ensures CollapseFrom(w, inRun) == if inRun then [] else [' ']
    decreases |w|
  {
    if |w| > 1 {
      assert Blank(w[1..]) by {
        assert forall i :: 0 <= i < |w[1..]| ==> w[1..][i] == w[i + 1];
      }
      CollapseBlank(w[1..], true);
    }
  }

  /**
   * Each maximal run of whitespace between two pieces of text becomes exactly
   * one plain space, and the pieces on either side collapse on their own.
   */
  lemma CollapseRun(a: string, w: string, b: string)
    requires |a| == 0 || !IsSpace(a[|a| - 1])
    requires Blank(w) && |w| > 0
    requires |b| == 0 || !IsSpace(b[0])
    ensures Collapsed(a + w + b) == Collapsed(a) + [' '] + Collapsed(b)
  {
    var wb := w + b;
    assert a + w + b == a + wb;
    CollapseAppend(a, wb, false);
    assert !RunAfter(a, false);
    CollapseAppend(w, b, false);
    CollapseBlank(w, false);
    assert RunAfter(w, false) by {
      assert IsSpace(w[|w| - 1]);
    }
    SolidStart(b);
  }

  /** Text that does not start with whitespace collapses the same whether or not a run came before. */
  lemma SolidStart(b: string)
    requires |b| == 0 || !IsSpace(b[0])
    ensures CollapseFrom(b, true) == CollapseFrom(b, false)
  {
  }

  /**
   * `s.trim().slice(0, n)`: at most `n` characters, not starting with
   * whitespace, and keeping every character-wise property of `s`.
   */
  function TrimTo(s: string, n: nat, k: Strip): (r: string)
    ensures |r| <= n
    ensures |r| > 0 ==> !IsSpace(r[0])
    ensures NoneOf(s, k) ==> NoneOf(r, k)
    ensures PlainSpaces(s) ==> PlainSpaces(r)
    ensures NoDoubleSpace(s) ==> NoDoubleSpace(r)
  {
    var trimmed := Trim(s);
    TrimKeeps(s, k);
    TakeKeeps(trimmed, n, k);
    Take(trimmed, n)
  }

  /** Trimming keeps every character-wise property. */
  lemma TrimKeeps(s: string, k: Strip)
    ensures NoneOf(s, k) ==> NoneOf(Trim(s), k)
    ensures PlainSpaces(s) ==> PlainSpaces(Trim(s))
    ensures NoDoubleSpace(s) ==> NoDoubleSpace(Trim(s))
  {
    SliceKeeps(s, Lead(s), Lead(s) + |Trim(s)|, k);
  }

  /** Cutting to a length keeps every character-wise property and the first character. */
  lemma TakeKeeps(s: string, n: nat, k: Strip)
    ensures NoneOf(s, k) ==> NoneOf(Take(s, n), k)
    ensures PlainSpaces(s) ==> PlainSpaces(Take(s, n))
    ensures NoDoubleSpace(s) ==> NoDoubleSpace(Take(s, n))
    ensures |Take(s, n)| > 0 ==> Take(s, n)[0] == s[0]
  {
    SliceKeeps(s, 0, |Take(s, n)|, k);
  }

  /** `sanitize`: the name cleaner. */
  function SanitizeName(input: Option<string>): (r: string)
    ensures |r| <= 24
    ensures NoneOf(r, Controls) && PlainSpaces(r) && NoDoubleSpace(r)
    ensures |r| > 0 ==> !IsSpace(r[0])
  {
    TrimTo(Collapsed(Without(input.GetOr(""), Controls)), 24, Controls)
  }

  /** `sanitizeMessage`: the message cleaner. TAB, LF and CR survive inside a message. */
  function SanitizeMessage(input: Option<string>): (r: string)
    ensures |r| <= 160
    ensures NoneOf(r, MessageControls)
    ensures |r| > 0 ==> !IsSpace(r[0])
  {
    TrimTo(Without(input.GetOr(""), MessageControls), 160, MessageControls)
  }

  /** Removing characters that do not occur changes nothing. */
  lemma {:induction false} WithoutNothing(s: string, drop: Strip)
    requires NoneOf(s, drop)
    ensures Without(s, drop) == s
    decreases |s|
  {
    if s != [] {
      assert NoneOf(s[1..], drop) by {
        assert forall i :: 0 <= i < |s[1..]| ==> s[1..][i] == s[i + 1];
      }
      WithoutNothing(s[1..], drop);
    }
  }

  /** What is left after removing `drop` is blank exactly when every character was dropped or whitespace. */
  lemma {:induction false} WithoutBlank(s: string, drop: Strip)
    ensures Blank(Without(s, drop)) <==> forall i :: 0 <= i < |s| ==> Drops(drop, s[i]) || IsSpace(s[i])
    decreases |s|
  {
    if s != [] {
      WithoutBlank(s[1..], drop);
      var head := if Drops(drop, s[0]) then [] else [s[0]];
      var r := head + Without(s[1..], drop);
      assert forall i :: 0 <= i < |s[1..]| ==> s[1..][i] == s[i + 1];
      assert forall i :: |head| <= i < |r| ==> r[i] == Without(s[1..], drop)[i - |head|];
      if forall i :: 0 <= i < |s| ==> Drops(drop, s[i]) || IsSpace(s[i]) {
        assert Blank(r);
      }
      if Blank(r) {
        var w := Without(s[1..], drop);
        forall j | 0 <= j < |w|
          ensures IsSpace(w[j])
        {
          assert w[j] == r[j + |head|];
        }
        assert Drops(drop, s[0]) || IsSpace(s[0]) by {
          if !Drops(drop, s[0]) {
            assert r[0] == s[0];
          }
        }
        forall i | 0 < i < |s|
          ensures Drops(drop, s[i]) || IsSpace(s[i])
        {
          assert s[i] == s[1..][i - 1];
        }
      }
    }
  }

  lemma {:induction false} TrimStartBlank(s: string)
    ensures TrimStart(s) == [] <==> Blank(s)
    decreases |s|
  {
    if |s| > 0 && IsSpace(s[0]) {
      TrimStartBlank(s[1..]);
      assert TrimStart(s) == TrimStart(s[1..]);
      BlankTail(s);
    } else if |s| > 0 {
      assert TrimStart(s) == s;
      assert !Blank(s) by {
        assert !IsSpace(s[0]);
      }
    }
  }

  /** Text that starts with whitespace is blank exactly when the rest of it is. */
  lemma BlankTail(s: string)
    requires |s| > 0 && IsSpace(s[0])
    ensures Blank(s) <==> Blank(s[1..])
  {
    if Blank(s[1..]) {
      forall i | 0 < i < |s|
        ensures IsSpace(s[i])
      {
        assert s[i] == s[1..][i - 1];
      }
    }
  }

  /** Trimming leaves nothing exactly when there was only whitespace. */
  lemma TrimBlank(s: string)
    ensures Trim(s) == [] <==> Blank(s)
  {
    TrimStartBlank(s);
    var t := TrimStart(s);
    if t != [] {
      assert TrimEnd(t) == t[..|TrimEnd(t)|];
      if TrimEnd(t) == [] {
        TrimEndOfNonBlank(t);
      }
    }
  }

  lemma {:induction false} TrimEndOfNonBlank(t: string)
    requires |t| > 0 && !IsSpace(t[0])
    ensures TrimEnd(t) != []
    decreases |t|
  {
    if IsSpace(t[|t| - 1]) {
      TrimEndOfNonBlank(t[..|t| - 1]);
    }
  }

  /**
   * A message cleans to nothing exactly when it holds only whitespace and
   * controls other than TAB, LF and CR.
   */
  lemma MessageEmpty(input: Option<string>)
    ensures var s := input.GetOr("");
      SanitizeMessage(input) == "" <==> forall i :: 0 <= i < |s| ==> IsMessageControl(s[i]) || IsSpace(s[i])
  {
    var stripped := Without(input.GetOr(""), MessageControls);
    WithoutBlank(input.GetOr(""), MessageControls);
    TrimBlank(stripped);
  }

  /** Trimming text that has no whitespace at either end changes nothing. */
  lemma TrimNothing(s: string)
    requires Trimmed(s)
    ensures Trim(s) == s
  {
  }

  /** Collapsing text whose whitespace is single plain spaces changes nothing. */
  lemma {:induction false} CollapseNothing(s: string, inRun: bool)
    requires PlainSpaces(s) && NoDoubleSpace(s)
    requires inRun && |s| > 0 ==> !IsSpace(s[0])
    ensures CollapseFrom(s, inRun) == s
    decreases |s|
  {
    if s != [] {
      SliceKeeps(s, 1, |s|, Controls);
      if |s| > 1 {
        assert s[1..][0] == s[1];
      }
      CollapseNothing(s[1..], IsSpace(s[0]));
    }
  }

  /**
   * A clean name (no controls, single plain spaces, no whitespace at either
   * end, at most 24 characters) comes out of `sanitize` unchanged.
   */
  lemma NameFixed(s: string)
    requires |s| <= 24 && NoneOf(s, Controls) && PlainSpaces(s) && NoDoubleSpace(s) && Trimmed(s)
    ensures SanitizeName(Some(s)) == s
  {
    WithoutNothing(s, Controls);
    CollapseNothing(s, false);
    TrimNothing(s);
  }

  /**
   * A clean message (no removable controls, no whitespace at either end, at
   * most 160 characters) comes out of `sanitizeMessage` unchanged, TABs and
   * line breaks inside it included.
   */
  lemma MessageFixed(s: string)
    requires |s| <= 160 && NoneOf(s, MessageControls) && Trimmed(s)
    ensures SanitizeMessage(Some(s)) == s
  {
    WithoutNothing(s, MessageControls);
    TrimNothing(s);
  }
}
