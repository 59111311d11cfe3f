/**
 * The JavaScript string operations the core uses: `startsWith`, `endsWith`, `trim`,
 * `replace` with a string pattern (first occurrence only) and `split(' ')[1]`.
 */
module Text {
  import opened Wrappers

  predicate StartsWith(s: string, prefix: string)
  {
    |prefix| <= |s| && s[..|prefix|] == prefix
  }

  predicate EndsWith(s: string, suffix: string)
  {
    |suffix| <= |s| && s[|s| - |suffix|..] == suffix
  }

  /** The characters `String.prototype.trim` removes: WhiteSpace and LineTerminator of ECMAScript. */
  predicate IsWhitespace(c: char)
  {
    || c == '\t' || c == '\n' || c == '\r' || c == ' ' || c == '\U{000B}' || c == '\U{000C}'
    || c == '\U{00A0}' || c == '\U{1680}' || c == '\U{2028}' || c == '\U{2029}' || c == '\U{202F}'
    || c == '\U{205F}' || c == '\U{3000}' || c == '\U{FEFF}'
    || ('\U{2000}' <= c <= '\U{200A}')
  }

  predicate AllWhitespace(s: string)
  {
    forall i :: 0 <= i < |s| ==> IsWhitespace(s[i])
  }

  function TrimStart(s: string): (r: string)
    ensures |r| <= |s| && r == s[|s| - |r|..]
    ensures r == [] || !IsWhitespace(r[0])
    ensures AllWhitespace(s[..|s| - |r|])
  {
    if s != [] && IsWhitespace(s[0]) then TrimStart(s[1..]) else s
  }

  function TrimEnd(s: string): (r: string)
    ensures |r| <= |s| && r == s[..|r|]
    ensures r == [] || !IsWhitespace(r[|r| - 1])
    ensures AllWhitespace(s[|r|..])
  {
    if s != [] && IsWhitespace(s[|s| - 1]) then TrimEnd(s[..|s| - 1]) else s
  }

  /** `s.trim()`: the result has no whitespace at either end and is empty exactly when `s` is all whitespace. */
  function Trim(s: string): (r: string)
    ensures |r| <= |s|
    ensures r == [] || (!IsWhitespace(r[0]) && !IsWhitespace(r[|r| - 1]))
    ensures r == [] <==> AllWhitespace(s)
  {
    var t := TrimStart(s);
    var r := TrimEnd(t);
    assert r == [] ==> AllWhitespace(s) by {
      if r == [] {
        assert s == s[..|s| - |t|] + t;
        assert t == t[..0] + t[0..];
      }
    }
    r
  }

  /** Trim removes exactly the whitespace padding around a body that neither starts nor ends with whitespace. */
  lemma {:induction false} TrimOfPadded(lead: string, body: string, trail: string)
    requires AllWhitespace(lead) && AllWhitespace(trail)
    requires body == [] || (!IsWhitespace(body[0]) && !IsWhitespace(body[|body| - 1]))
    requires body == [] ==> trail == []
    ensures Trim(lead + body + trail) == body
  {
    assert lead + body + trail == lead + (body + trail);
    TrimStartOfPadded(lead, body + trail);
    TrimEndOfPadded(body, trail);
  }

  lemma {:induction false} TrimStartOfPadded(lead: string, rest: string)
    requires AllWhitespace(lead)
    requires rest == [] || !IsWhitespace(rest[0])
    ensures TrimStart(lead + rest) == rest
  {
    if lead != [] {
      assert (lead + rest)[1..] == lead[1..] + rest;
      TrimStartOfPadded(lead[1..], rest);
    }
  }

  lemma {:induction false} TrimEndOfPadded(body: string, trail: string)
    requires AllWhitespace(trail)
    requires body == [] || !IsWhitespace(body[|body| - 1])
    ensures TrimEnd(body + trail) == body
  {
    if trail != [] {
      var s := body + trail;
      assert s[..|s| - 1] == body + trail[..|trail| - 1];
      TrimEndOfPadded(body, trail[..|trail| - 1]);
    } else {
      assert body + trail == body;
    }
  }

  /** The trimmed text is the slice of `s` starting at the returned position. */
  lemma TrimIsSlice(s: string) returns (k: nat)
    ensures k + |Trim(s)| <= |s| && Trim(s) == s[k..k + |Trim(s)|]
  {
    k := |s| - |TrimStart(s)|;
    SliceOfSuffix(s, k, |Trim(s)|);
  }

  lemma SliceOfSuffix(s: string, k: nat, m: nat)
    requires k + m <= |s|
    ensures s[k..][..m] == s[k..k + m]
  {
  }

  /** Trimming twice is trimming once. */
  lemma {:induction false} TrimIdempotent(s: string)
    ensures Trim(Trim(s)) == Trim(s)
  {
    var r := Trim(s);
    var none: string := [];
    assert none + r + none == r;
    TrimOfPadded(none, r, none);
  }

  /**
   * `s.replace(pattern, replacement)` with a string pattern: only the first occurrence is replaced,
   * and a string without an occurrence is returned unchanged.
   */
  function ReplaceFirst(s: string, pattern: string, replacement: string): (r: string)
    decreases |s|
  {
    if StartsWith(s, pattern) then replacement + s[|pattern|..]
    else if s == [] then s
    else [s[0]] + ReplaceFirst(s[1..], pattern, replacement)
  }

  /** `pattern` starts at position `i` of `s`. */
  predicate OccursAt(s: string, pattern: string, i: nat)
  {
    i <= |s| && StartsWith(s[i..], pattern)
  }

  predicate Occurs(s: string, pattern: string)
  {
    exists i: nat :: i <= |s| && OccursAt(s, pattern, i)
  }

  /** The position where `pattern` first occurs in `s` (`indexOf` with a string argument), if it occurs. */
  function FirstOccurrence(s: string, pattern: string): Option<nat>
    decreases |s|
  {
    if StartsWith(s, pattern) then Some(0)
    else if s == [] then None
    else match FirstOccurrence(s[1..], pattern)
      case None => None
      case Some(i) => Some(i + 1)
  }

  /** The search finds an occurrence with none before it, and finds none exactly when the pattern does not occur. */
  lemma {:induction false} FirstOccurrenceIsFirst(s: string, pattern: string)
    ensures FirstOccurrence(s, pattern).Some? ==> OccursAt(s, pattern, FirstOccurrence(s, pattern).value)
    ensures FirstOccurrence(s, pattern).Some? ==>
              forall j: nat :: j < FirstOccurrence(s, pattern).value ==> !OccursAt(s, pattern, j)
    ensures FirstOccurrence(s, pattern).None? <==> !Occurs(s, pattern)
    decreases |s|
  {
    assert s[0..] == s;
    if StartsWith(s, pattern) {
      assert OccursAt(s, pattern, 0);
    } else if s == [] {
      assert !OccursAt(s, pattern, 0);
    } else {
      OccursInTail(s, pattern);
      FirstOccurrenceIsFirst(s[1..], pattern);
      match FirstOccurrence(s[1..], pattern)
      case None =>
      case Some(i) =>
        assert FirstOccurrence(s, pattern) == Some(i + 1);
        assert OccursAt(s, pattern, i + 1);
        forall j: nat | j < i + 1
          ensures !OccursAt(s, pattern, j)
        {
          if j > 0 {
            assert !OccursAt(s[1..], pattern, j - 1);
          }
        }
    }
  }

  /** Past a position where the pattern does not start, the occurrences are those of the tail, shifted by one. */
  lemma OccursInTail(s: string, pattern: string)
    requires s != [] && !StartsWith(s, pattern)
    ensures forall j: nat :: 1 <= j ==> (OccursAt(s, pattern, j) <==> OccursAt(s[1..], pattern, j - 1))
    ensures Occurs(s, pattern) <==> Occurs(s[1..], pattern)
  {
    forall j: nat | 1 <= j
      ensures OccursAt(s, pattern, j) <==> OccursAt(s[1..], pattern, j - 1)
    {
      if j <= |s| {
        assert s[j..] == s[1..][j - 1..];
      }
    }
    assert s[0..] == s;
    if Occurs(s, pattern) {
      var i: nat :| OccursAt(s, pattern, i);
      assert OccursAt(s[1..], pattern, i - 1);
    }
    if Occurs(s[1..], pattern) {
      var i: nat :| OccursAt(s[1..], pattern, i);
      assert OccursAt(s, pattern, i + 1);
    }
  }

  /** Replace splices the replacement in at the first occurrence, keeping what precedes and follows it. */
  lemma {:induction false} ReplaceFirstAtFirstOccurrence(s: string, pattern: string, replacement: string, i: nat)
    requires FirstOccurrence(s, pattern) == Some(i)
    ensures i + |pattern| <= |s|
    ensures ReplaceFirst(s, pattern, replacement) == s[..i] + replacement + s[i + |pattern|..]
    decreases |s|
  {
    if i == 0 {
      assert s[..0] + replacement == replacement;
    } else {
      ReplaceFirstAtFirstOccurrence(s[1..], pattern, replacement, i - 1);
      ReplaceFirstPastHead(s, pattern, replacement, i - 1);
    }
  }

  /** One step of the induction: a head that does not start an occurrence is kept in front of the tail's result. */
  lemma ReplaceFirstPastHead(s: string, pattern: string, replacement: string, i: nat)
    requires s != [] && !StartsWith(s, pattern)
    requires i + |pattern| <= |s| - 1
    requires ReplaceFirst(s[1..], pattern, replacement) == s[1..][..i] + replacement + s[1..][i + |pattern|..]
    ensures ReplaceFirst(s, pattern, replacement) == s[..i + 1] + replacement + s[i + 1 + |pattern|..]
  {
    assert ReplaceFirst(s, pattern, replacement) == [s[0]] + ReplaceFirst(s[1..], pattern, replacement);
    assert [s[0]] + s[1..] == s;
    ConsSplice(s[0], s[1..], replacement, i, i + |pattern|);
  }

  /** Putting `c` in front of a splice of `tail` is the same splice of `[c] + tail`, one position later. */
  lemma ConsSplice(c: char, tail: string, middle: string, i: nat, k: nat)
    requires i <= k <= |tail|
    ensures [c] + (tail[..i] + middle + tail[k..]) == ([c] + tail)[..i + 1] + middle + ([c] + tail)[k + 1..]
  {
    var s := [c] + tail;
    assert s[..i + 1] == [c] + tail[..i];
    assert s[k + 1..] == tail[k..];
  }

  /** When the pattern does not occur, replace leaves the string as it is. */
  lemma {:induction false} ReplaceFirstAbsent(s: string, pattern: string, replacement: string)
    requires !Occurs(s, pattern)
    ensures ReplaceFirst(s, pattern, replacement) == s
  {
    assert s[0..] == s;
    assert !OccursAt(s, pattern, 0);
    if s != [] {
      OccursInTail(s, pattern);
      ReplaceFirstAbsent(s[1..], pattern, replacement);
    }
  }

  /** The index of the first occurrence of `c` in `s`, if any. */
  function IndexOf(s: string, c: char): (r: Option<nat>)
    ensures r.None? <==> c !in s
    ensures r.Some? ==> r.value < |s| && s[r.value] == c && c !in s[..r.value]
  {
    if s == [] then None
    else if s[0] == c then Some(0)
    else match IndexOf(s[1..], c)
      case None => None
      case Some(i) => assert s[..i + 1] == [s[0]] + s[1..][..i]; Some(i + 1)
  }

  /**
   * `s.split(' ')[1]`: the text between the first and the second space (or the end of the string);
   * `undefined` when `s` holds no space.
   */
  function SecondWord(s: string): (r: Option<string>)
    ensures r.None? <==> ' ' !in s
    ensures r.Some? ==> ' ' !in r.value
  {
    match IndexOf(s, ' ')
    case None => None
    case Some(i) =>
      var rest := s[i + 1..];
      match IndexOf(rest, ' ')
      case None => Some(rest)
      case Some(j) => Some(rest[..j])
  }

  /**
   * With the first space at `i`, the second word is what follows it up to the next space or the end:
   * a prefix of `s[i + 1..]` that is all of it or stops at a space.
   */
  lemma SecondWordAfterFirstSpace(s: string, i: nat)
    requires i < |s| && s[i] == ' ' && ' ' !in s[..i]
    ensures SecondWord(s).Some?
    ensures var w := SecondWord(s).value;
            && w <= s[i + 1..]
            && (|w| == |s[i + 1..]| || s[i + 1 + |w|] == ' ')
  {
    assert s[..i + 1][i] == ' ';
    assert IndexOf(s, ' ') == Some(i);
  }

  /** A header of the form `scheme credential` (one space, no other) yields the credential. */
  lemma SecondWordOfSchemeAndCredential(scheme: string, credential: string)
    requires ' ' !in scheme && ' ' !in credential
    ensures SecondWord(scheme + " " + credential) == Some(credential)
  {
    var s := scheme + " " + credential;
    var i := IndexOf(s, ' ');
    assert s[|scheme|] == ' ';
    assert s[..|scheme|] == scheme;
    assert forall k :: |scheme| < k <= |s| ==> s[..k][|scheme|] == ' ';
    assert s[|scheme| + 1..] == credential;
  }
}
