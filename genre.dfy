/**
 * Genre normaliser: the cleanup of the Genre column of the general table.
 * First every occurrence of " Game" is removed (a plain left-to-right substring
 * replace), then four long genre names are replaced by short codes.
 */
module Genre {
  import opened Rows

  /** The literal that the cleanup removes wherever it occurs. */
  const Pattern: string := " Game"

  /** The fixed relabelling table, applied after the cleanup. */
  const Codes: map<string, string> := map[
    "Multiplayer Online Battle Arena" := "MOBA",
    "Role-Playing" := "RPG",
    "Third-Person Shooter" := "TPS",
    "First-Person Shooter" := "FPS"
  ]

  /** An occurrence of " Game" starts at index i of s. */
  predicate OccursAt(s: string, i: nat)
  {
    i + |Pattern| <= |s| && s[i..i + |Pattern|] == Pattern
  }

  /** No occurrence of " Game" starts anywhere in s. */
  predicate Clean(s: string)
  {
    forall i :: 0 <= i < |s| ==> !OccursAt(s, i)
  }

  /**
   * The cleanup: scan left to right; where an occurrence starts, drop it and go on
   * after it; otherwise keep the character. Occurrences found are non-overlapping.
   */
  function StripGame(s: string): (r: string)
    ensures |r| <= |s|
    decreases |s|
  {
    if |s| == 0 then s
    else if OccursAt(s, 0) then StripGame(s[|Pattern|..])
    else [s[0]] + StripGame(s[1..])
  }

  /** How many occurrences the left-to-right scan of StripGame removes. */
  function Removed(s: string): nat
    decreases |s|
  {
    if |s| == 0 then 0
    else if OccursAt(s, 0) then 1 + Removed(s[|Pattern|..])
    else Removed(s[1..])
  }

  /** The relabelling: a key of the table becomes its short code; any other label is kept. */
  function Relabel(g: string): (r: string)
    ensures r !in Codes
    ensures r == g || (g in Codes && r == Codes[g])
  {
    if g in Codes then Codes[g] else g
  }

  /** The whole normaliser: the relabelling runs on the cleaned label. */
  function Normalise(g: string): string
  {
    Relabel(StripGame(g))
  }

  /** Each removed occurrence shortens the label by exactly five characters. */
  lemma {:induction false} StripGameLength(s: string)
    ensures |StripGame(s)| == |s| - |Pattern| * Removed(s)
    decreases |s|
  {
    if |s| == 0 {
    } else if OccursAt(s, 0) {
      StripGameLength(s[|Pattern|..]);
    } else {
      StripGameLength(s[1..]);
    }
  }

  /** Shifting by one character moves every occurrence by one index. */
  lemma OccursAtTail(s: string, i: nat)
    requires |s| > 0
    ensures OccursAt(s, i + 1) <==> OccursAt(s[1..], i)
  {
    if i + 1 + |Pattern| <= |s| {
      assert s[i + 1..i + 1 + |Pattern|] == s[1..][i..i + |Pattern|];
    }
  }

  /** The scan removes something exactly when the label holds an occurrence. */
  lemma {:induction false} RemovedIffOccurrence(s: string)
    ensures Removed(s) == 0 <==> Clean(s)
    decreases |s|
  {
    if |s| == 0 {
    } else if OccursAt(s, 0) {
    } else {
      RemovedIffOccurrence(s[1..]);
      forall i | 0 <= i < |s[1..]|
        ensures OccursAt(s, i + 1) <==> OccursAt(s[1..], i)
      {
        OccursAtTail(s, i);
      }
      if !Clean(s) {
        var i :| 0 <= i < |s| && OccursAt(s, i);
        assert i != 0;
        assert OccursAt(s[1..], i - 1);
      }
    }
  }

  /** A label is left unchanged by the cleanup exactly when it holds no " Game". */
  lemma StripGameUnchangedIff(s: string)
    ensures StripGame(s) == s <==> Clean(s)
  {
    StripGameLength(s);
    RemovedIffOccurrence(s);
    if Clean(s) {
      assert s + [] == s;
      CleanPrefix(s, []);
      assert StripGame([]) == [];
    }
  }

  /**
   * A prefix in which no occurrence starts is copied unchanged, and the scan
   * resumes on the rest exactly where the prefix ends.
   */
  lemma {:induction false} CleanPrefix(a: string, b: string)
    requires forall i :: 0 <= i < |a| ==> !OccursAt(a + b, i)
    ensures StripGame(a + b) == a + StripGame(b)
    decreases |a|
  {
    if |a| > 0 {
      var s := a + b;
      assert !OccursAt(s, 0);
      assert s[1..] == a[1..] + b;
      forall i | 0 <= i < |a[1..]|
        ensures !OccursAt(a[1..] + b, i)
      {
        OccursAtTail(s, i);
      }
      CleanPrefix(a[1..], b);
      assert StripGame(s) == [a[0]] + StripGame(a[1..] + b);
      assert [a[0]] + a[1..] == a;
    } else {
      assert a + b == b;
    }
  }

  /**
   * The leftmost occurrence is the one removed: if none starts inside a, then
   * a + " Game" + b cleans to a followed by the cleanup of b.
   */
  lemma LeftmostRemoved(a: string, b: string)
    requires forall i :: 0 <= i < |a| ==> !OccursAt(a + Pattern + b, i)
    ensures StripGame(a + Pattern + b) == a + StripGame(b)
  {
    assert a + Pattern + b == a + (Pattern + b);
    CleanPrefix(a, Pattern + b);
    assert OccursAt(Pattern + b, 0);
    assert (Pattern + b)[|Pattern|..] == b;
  }

  /** Every occurrence starts with a blank followed by a capital G. */
  lemma OccurrenceLetters(s: string, i: nat)
    requires OccursAt(s, i)
    ensures s[i] == ' ' && s[i + 1] == 'G' && s[i + 2] == 'a'
  {
    assert s[i..i + |Pattern|][0] == s[i] && s[i..i + |Pattern|][1] == s[i + 1];
    assert s[i..i + |Pattern|][2] == s[i + 2];
  }

  /** A label without a capital G holds no occurrence. */
  lemma CleanWithoutG(s: string)
    requires 'G' !in s
    ensures Clean(s)
  {
    forall i | 0 <= i < |s|
      ensures !OccursAt(s, i)
    {
      if OccursAt(s, i) {
        OccurrenceLetters(s, i);
      }
    }
  }

  /**
   * A label that holds no occurrence gains none that starts inside it when
   * " Game" and anything else are appended: an occurrence reaching past its end
   * would need the appended blank to stand where " Game" has a letter.
   */
  lemma CleanBeforeSuffix(a: string, b: string)
    requires Clean(a)
    ensures forall i :: 0 <= i < |a| ==> !OccursAt(a + Pattern + b, i)
  {
    var s := a + Pattern + b;
    forall i | 0 <= i < |a|
      ensures !OccursAt(s, i)
    {
      if i + |Pattern| <= |a| {
        assert s[i..i + |Pattern|] == a[i..i + |Pattern|];
        assert !OccursAt(a, i);
      } else if i + |Pattern| <= |s| {
        assert s[i..i + |Pattern|][|a| - i] == s[|a|] == ' ';
      }
    }
  }

  /** A label ending in " Game", with no earlier occurrence, loses exactly that suffix. */
  lemma TrailingSuffixRemoved(t: string)
    requires Clean(t)
    ensures StripGame(t + Pattern) == t
  {
    assert t + Pattern + [] == t + Pattern;
    CleanBeforeSuffix(t, []);
    LeftmostRemoved(t, []);
    assert StripGame([]) == [];
    assert t + [] == t;
  }

  /**
   * The cleanup does not guarantee that the result is free of " Game": in the label
   * " G Gameame Game", which ends in " Game", removing the two occurrences brings
   * the remaining pieces " G" and "ame" together into a new one.
   */
  lemma SuffixCanSurvive()
    ensures var s := " G" + Pattern + "ame" + Pattern;
      StripGame(s) == Pattern && Normalise(s) == Pattern
  {
    var head, tail := " G", "ame" + Pattern;
    forall i | 0 <= i < |head|
      ensures !OccursAt(head + Pattern + tail, i)
    {
      if OccursAt(head + Pattern + tail, i) {
        OccurrenceLetters(head + Pattern + tail, i);
      }
    }
    LeftmostRemoved(head, tail);
    CleanWithoutG("ame");
    TrailingSuffixRemoved("ame");
    assert head + Pattern + tail == " G" + Pattern + "ame" + Pattern;
    assert head + "ame" == Pattern;
    assert Pattern !in Codes;
  }

  /** The relabelling maps exactly the four table keys to their codes. */
  lemma RelabelTable(g: string)
    ensures Relabel(g) == "MOBA" <==> g == "Multiplayer Online Battle Arena" || g == "MOBA"
    ensures Relabel(g) == "RPG" <==> g == "Role-Playing" || g == "RPG"
    ensures Relabel(g) == "TPS" <==> g == "Third-Person Shooter" || g == "TPS"
    ensures Relabel(g) == "FPS" <==> g == "First-Person Shooter" || g == "FPS"
    ensures g !in Codes ==> Relabel(g) == g
  {
  }

  /** Relabelling twice is relabelling once, since no short code is itself a key. */
  lemma RelabelIdempotent(g: string)
    ensures Relabel(Relabel(g)) == Relabel(g)
  {
  }

  /** Every normalised genre is a short code or the cleaned original label. */
  lemma NormaliseVocabulary(g: string)
    ensures Normalise(g) in Codes.Values || Normalise(g) == StripGame(g)
    ensures Normalise(g) != StripGame(g) ==> StripGame(g) in Codes
  {
  }

  /** A label without a capital G, followed by " Game", normalises as the bare label. */
  lemma NormaliseTrailing(t: string)
    requires 'G' !in t
    ensures Normalise(t + Pattern) == Relabel(t)
  {
    CleanWithoutG(t);
    TrailingSuffixRemoved(t);
  }

  /** The long names carrying the suffix reach their short codes: cleanup runs first. */
  lemma NormaliseWithSuffix()
    ensures Normalise("Role-Playing" + Pattern) == "RPG"
    ensures Normalise("Multiplayer Online Battle Arena" + Pattern) == "MOBA"
    ensures Normalise("Fighting" + Pattern) == "Fighting"
  {
    assert Normalise("Role-Playing" + Pattern) == "RPG" by {
      NormaliseTrailing("Role-Playing");
    }
    assert Normalise("Multiplayer Online Battle Arena" + Pattern) == "MOBA" by {
      NormaliseTrailing("Multiplayer Online Battle Arena");
    }
    assert Normalise("Fighting" + Pattern) == "Fighting" by {
      NormaliseTrailing("Fighting");
    }
  }

  /** Line 18: the cleanup is written back into the Genre column, row by row. */
  method CleanGenres(t: array<GameRow>)
    modifies t
    ensures forall i :: 0 <= i < t.Length ==> t[i] == old(t[i]).(genre := StripGame(old(t[i]).genre))
  {
    var k := 0;
    while k < t.Length
      invariant 0 <= k <= t.Length
      invariant forall i :: 0 <= i < k ==> t[i] == old(t[i]).(genre := StripGame(old(t[i]).genre))
      invariant forall i :: k <= i < t.Length ==> t[i] == old(t[i])
    {
      t[k] := t[k].(genre := StripGame(t[k].genre));
      k := k + 1;
    }
  }

  /** Lines 19-24: the relabelling replaces the Genre column in place. */
  method RelabelGenres(t: array<GameRow>)
    modifies t
    ensures forall i :: 0 <= i < t.Length ==> t[i] == old(t[i]).(genre := Relabel(old(t[i]).genre))
  {
    var k := 0;
    while k < t.Length
      invariant 0 <= k <= t.Length
      invariant forall i :: 0 <= i < k ==> t[i] == old(t[i]).(genre := Relabel(old(t[i]).genre))
      invariant forall i :: k <= i < t.Length ==> t[i] == old(t[i])
    {
      t[k] := t[k].(genre := Relabel(t[k].genre));
      k := k + 1;
    }
  }

  /** Lines 18-24 together: only the Genre column changes, to its normalised label. */
  method NormaliseGenres(t: array<GameRow>)
    modifies t
    ensures forall i :: 0 <= i < t.Length ==> t[i] == old(t[i]).(genre := Normalise(old(t[i]).genre))
  {
    CleanGenres(t);
    RelabelGenres(t);
  }
}
