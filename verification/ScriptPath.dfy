/** strings.ReplaceAll, as the script path template uses it. */
module ScriptPath {

  const LANG := "{lang}"

  ghost predicate Occurs(pattern: string, s: string) {
    exists i :: 0 <= i <= |s| && pattern <= s[i..]
  }

  function ReplaceAll(s: string, pattern: string, value: string): string
    requires pattern != ""
    decreases |s|
  {
    if s == "" then ""
    else if pattern <= s then value + ReplaceAll(s[|pattern|..], pattern, value)
    else [s[0]] + ReplaceAll(s[1..], pattern, value)
  }

  function Join(pieces: seq<string>, separator: string): string
    requires pieces != []
  {
    if |pieces| == 1 then pieces[0] else pieces[0] + separator + Join(pieces[1..], separator)
  }

  /** No piece contains the pattern, and none of those before a pattern starts one that overlaps it. */
  ghost predicate Leftmost(pieces: seq<string>, pattern: string)
    requires pattern != ""
  {
    && (forall i | 0 <= i < |pieces| :: !Occurs(pattern, pieces[i]))
    && (forall i | 0 <= i < |pieces| - 1 :: !Occurs(pattern, pieces[i] + pattern[..|pattern| - 1]))
  }

  lemma JoinFirst(first: string, pieces: seq<string>, separator: string)
    requires pieces != []
    ensures Join([first] + pieces, separator) == first + separator + Join(pieces, separator)
  {
    assert ([first] + pieces)[1..] == pieces;
  }

  lemma JoinLonger(c: char, pieces: seq<string>, separator: string)
    requires pieces != []
    ensures Join([[c] + pieces[0]] + pieces[1..], separator) == [c] + Join(pieces, separator)
  {
    assert ([[c] + pieces[0]] + pieces[1..])[1..] == pieces[1..];
  }

  /** One more character in front makes an occurrence only if the pattern is a prefix. */
  lemma OccursLonger(pattern: string, c: char, s: string)
    requires !Occurs(pattern, s) && !(pattern <= [c] + s)
    ensures !Occurs(pattern, [c] + s)
  {
    forall i | 0 <= i <= |[c] + s|
      ensures !(pattern <= ([c] + s)[i..])
    {
      if i == 0 {
        assert ([c] + s)[i..] == [c] + s;
      } else {
        assert ([c] + s)[i..] == s[i - 1..];
      }
    }
  }

  lemma JoinStarts(pieces: seq<string>, separator: string)
    requires pieces != []
    ensures pieces[0] <= Join(pieces, separator)
    ensures |pieces| > 1 ==> pieces[0] + separator <= Join(pieces, separator)
  {
  }

  lemma LeftmostLonger(c: char, pieces: seq<string>, pattern: string)
    requires pattern != "" && pieces != [] && Leftmost(pieces, pattern)
    requires !(pattern <= [c] + Join(pieces, pattern))
    ensures Leftmost([[c] + pieces[0]] + pieces[1..], pattern)
  {
    var longer := [[c] + pieces[0]] + pieces[1..];
    JoinStarts(pieces, pattern);
    OccursLonger(pattern, c, pieces[0]);
    if |pieces| > 1 {
      var head := pieces[0] + pattern[..|pattern| - 1];
      assert head <= pieces[0] + pattern;
      OccursLonger(pattern, c, head);
      assert longer[0] + pattern[..|pattern| - 1] == [c] + head;
    }
    assert forall i | 1 <= i < |longer| :: longer[i] == pieces[i];
  }

  /** `pieces` are what lies between the leftmost occurrences, and the result has the value in their place. */
  ghost predicate Cuts(s: string, pattern: string, value: string, pieces: seq<string>)
    requires pattern != ""
  {
    && pieces != [] && Leftmost(pieces, pattern)
    && s == Join(pieces, pattern) && ReplaceAll(s, pattern, value) == Join(pieces, value)
  }

  lemma TooShort(pattern: string, s: string)
    requires |s| < |pattern|
    ensures !Occurs(pattern, s)
  {
  }

  lemma LeftmostHere(rest: seq<string>, pattern: string)
    requires pattern != "" && rest != [] && Leftmost(rest, pattern)
    ensures Leftmost([""] + rest, pattern)
  {
    var pieces := [""] + rest;
    forall i | 0 <= i < |pieces|
      ensures !Occurs(pattern, pieces[i])
      ensures i < |pieces| - 1 ==> !Occurs(pattern, pieces[i] + pattern[..|pattern| - 1])
    {
      if i == 0 {
        TooShort(pattern, pieces[0]);
        TooShort(pattern, pieces[0] + pattern[..|pattern| - 1]);
      } else {
        assert pieces[i] == rest[i - 1];
      }
    }
  }

  lemma CutHere(s: string, pattern: string, value: string, rest: seq<string>)
    requires pattern != "" && pattern <= s && Cuts(s[|pattern|..], pattern, value, rest)
    ensures Cuts(s, pattern, value, [""] + rest)
  {
    LeftmostHere(rest, pattern);
    JoinFirst("", rest, pattern);
    JoinFirst("", rest, value);
    StartsHere(s, pattern, value);
    assert "" + pattern == pattern && "" + value == value;
  }

  lemma StartsHere(s: string, pattern: string, value: string)
    requires pattern != "" && pattern <= s
    ensures s == pattern + s[|pattern|..]
    ensures ReplaceAll(s, pattern, value) == value + ReplaceAll(s[|pattern|..], pattern, value)
  {
  }

  lemma CutLater(s: string, pattern: string, value: string, rest: seq<string>)
    requires pattern != "" && s != "" && !(pattern <= s) && Cuts(s[1..], pattern, value, rest)
    ensures Cuts(s, pattern, value, [[s[0]] + rest[0]] + rest[1..])
  {
    assert s == [s[0]] + s[1..];
    JoinLonger(s[0], rest, pattern);
    JoinLonger(s[0], rest, value);
    LeftmostLonger(s[0], rest, pattern);
  }

  lemma NotInside(pattern: string, a: string, rest: string)
    requires pattern != "" && a != "" && !Occurs(pattern, a + pattern[..|pattern| - 1])
    ensures !(pattern <= a + pattern + rest)
  {
    var s := a + pattern + rest;
    var window := a + pattern[..|pattern| - 1];
    assert window <= s && |pattern| <= |window| && window[0..] == window;
    assert pattern <= s ==> pattern <= window;
  }

  lemma TailFree(pattern: string, a: string)
    requires a != "" && !Occurs(pattern, a)
    ensures !Occurs(pattern, a[1..]) && !(pattern <= a)
  {
    assert a[0..] == a;
    forall i | 0 <= i <= |a[1..]|
      ensures !(pattern <= a[1..][i..])
    {
      assert a[1..][i..] == a[i + 1..];
    }
  }

  lemma {:induction false} NothingToReplace(a: string, pattern: string, value: string)
    requires pattern != "" && !Occurs(pattern, a)
    ensures ReplaceAll(a, pattern, value) == a
    decreases |a|
  {
    if a != "" {
      TailFree(pattern, a);
      NothingToReplace(a[1..], pattern, value);
    }
  }

  lemma {:induction false} ReplaceFirst(a: string, rest: string, pattern: string, value: string)
    requires pattern != "" && !Occurs(pattern, a + pattern[..|pattern| - 1])
    ensures ReplaceAll(a + pattern + rest, pattern, value) == a + value + ReplaceAll(rest, pattern, value)
    decreases |a|
  {
    var s := a + pattern + rest;
    if a == "" {
      assert s == pattern + rest && s[|pattern|..] == rest;
    } else {
      NotInside(pattern, a, rest);
      var window := a + pattern[..|pattern| - 1];
      TailFree(pattern, window);
      assert window[1..] == a[1..] + pattern[..|pattern| - 1];
      ReplaceFirst(a[1..], rest, pattern, value);
      assert s[1..] == a[1..] + pattern + rest;
      assert [s[0]] + (a[1..] + value + ReplaceAll(rest, pattern, value)) == a + value + ReplaceAll(rest, pattern, value);
    }
  }

  /** However a text is put together from leftmost pieces, replacing puts the value between the same pieces. */
  lemma {:induction false} ReplaceJoined(pieces: seq<string>, pattern: string, value: string)
    requires pattern != "" && pieces != [] && Leftmost(pieces, pattern)
    ensures ReplaceAll(Join(pieces, pattern), pattern, value) == Join(pieces, value)
    decreases |pieces|
  {
    if |pieces| == 1 {
      NothingToReplace(pieces[0], pattern, value);
    } else {
      ReplaceJoined(pieces[1..], pattern, value);
      ReplaceFirst(pieces[0], Join(pieces[1..], pattern), pattern, value);
    }
  }

  /**
   * Replacing cuts the text at the leftmost occurrences, one after the other,
   * and puts the value where the pattern was; nothing else changes.
   */
  lemma {:induction false} ReplaceAllCuts(s: string, pattern: string, value: string) returns (pieces: seq<string>)
    requires pattern != ""
    ensures Cuts(s, pattern, value, pieces)
    decreases |s|
  {
    if s == "" {
      pieces := [""];
      TooShort(pattern, "");
    } else if pattern <= s {
      var rest := ReplaceAllCuts(s[|pattern|..], pattern, value);
      pieces := [""] + rest;
      CutHere(s, pattern, value, rest);
    } else {
      var rest := ReplaceAllCuts(s[1..], pattern, value);
      pieces := [[s[0]] + rest[0]] + rest[1..];
      CutLater(s, pattern, value, rest);
    }
  }
}
