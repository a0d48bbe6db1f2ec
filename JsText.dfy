/**
 * The JavaScript string operations the endpoints rely on: `trim`,
 * `endsWith`, `includes` and `split`, with `join` as the inverse of `split`.
 * Strings are sequences of Unicode scalar values.
 */
module JsText {

  /** The WhiteSpace and LineTerminator code points of ECMAScript, the set `trim` strips. */
  predicate IsSpace(c: char) {
    c in {'\t', '\n', '\U{000B}', '\U{000C}', '\r', ' ', '\U{00A0}', '\U{1680}',
          '\U{2000}', '\U{2001}', '\U{2002}', '\U{2003}', '\U{2004}', '\U{2005}',
          '\U{2006}', '\U{2007}', '\U{2008}', '\U{2009}', '\U{200A}',
          '\U{2028}', '\U{2029}', '\U{202F}', '\U{205F}', '\U{3000}', '\U{FEFF}'}
  }

  predicate AllSpace(s: string) {
    forall i :: 0 <= i < |s| ==> IsSpace(s[i])
  }

  /** The index of the first character that is not white space (`|s|` if there is none). */
  function TextStart(s: string): (i: nat)
    ensures i <= |s|
    ensures forall k :: 0 <= k < i ==> IsSpace(s[k])
    ensures i == |s| || !IsSpace(s[i])
  {
    if s != [] && IsSpace(s[0]) then
      var j := TextStart(s[1..]);
      assert forall k :: 1 <= k < j + 1 ==> s[k] == s[1..][k - 1];
      j + 1
    else 0
  }

  /** The index just past the last character that is not white space (0 if there is none). */
  function TextEnd(s: string): (j: nat)
    ensures j <= |s|
    ensures forall k :: j <= k < |s| ==> IsSpace(s[k])
    ensures j == 0 || !IsSpace(s[j - 1])
  {
    if s != [] && IsSpace(s[|s| - 1]) then TextEnd(s[..|s| - 1]) else |s|
  }

  /** `s.trim()`: `s` with white space removed from both ends. */
  function Trim(s: string): (r: string)
    ensures |r| <= |s|
    ensures r == [] || (!IsSpace(r[0]) && !IsSpace(r[|r| - 1]))
    ensures r == [] <==> AllSpace(s)
  {
    var i, j := TextStart(s), TextEnd(s);
    if i < j then s[i..j] else []
  }

  /** Trimming removes only white space: `s` is white space, then its trimmed form, then white space. */
  lemma {:induction false} TrimIsInnerSlice(s: string)
    ensures exists lead: string, tail: string ::
              AllSpace(lead) && AllSpace(tail) && s == lead + Trim(s) + tail
  {
    var i, j := TextStart(s), TextEnd(s);
    if i < j {
      TrimCutsAtText(s);
      assert AllSpace(s[..i]) && AllSpace(s[j..]) && s == s[..i] + Trim(s) + s[j..];
    } else {
      var none: string := [];
      assert Trim(s) == none;
      assert AllSpace(s) && AllSpace(none) && s == s + Trim(s) + none;
    }
  }

  /** When `s` has some text, trimming cuts it just before the first and just after the last non-space character. */
  lemma {:induction false} TrimCutsAtText(s: string)
    requires TextStart(s) < TextEnd(s)
    ensures AllSpace(s[..TextStart(s)]) && AllSpace(s[TextEnd(s)..])
    ensures s == s[..TextStart(s)] + Trim(s) + s[TextEnd(s)..]
  {
    var i, j := TextStart(s), TextEnd(s);
    assert Trim(s) == s[i..j];
    ThreeSlices(s, i, j);
  }

  /** `s` is the concatenation of its three slices cut at `i` and `j`. */
  lemma {:induction false} ThreeSlices(s: string, i: nat, j: nat)
    requires i <= j <= |s|
    ensures s == s[..i] + s[i..j] + s[j..]
  {
  }

  /** Trimming twice is trimming once. */
  lemma {:induction false} TrimIdempotent(s: string)
    ensures Trim(Trim(s)) == Trim(s)
  {
    var r := Trim(s);
    if r != [] {
      assert TextStart(r) == 0;
      assert TextEnd(r) == |r|;
      assert r[0..|r|] == r;
    }
  }

  /** `s.endsWith(suffix)`: `s` is some string followed by `suffix`. */
  predicate EndsWith(s: string, suffix: string)
  {
    |suffix| <= |s| && s[|s| - |suffix|..] == suffix
  }

  /** `endsWith` holds exactly when `s` is some string followed by `suffix`. */
  lemma EndsWithIffConcat(s: string, suffix: string)
    ensures EndsWith(s, suffix) <==> exists head: string :: s == head + suffix
  {
    if EndsWith(s, suffix) {
      var head := s[..|s| - |suffix|];
      assert s == head + suffix;
    }
    forall head: string | s == head + suffix
      ensures EndsWith(s, suffix)
    {
      assert s[|head|..] == suffix;
    }
  }

  /** `sub` occurs in `s` starting at index `i`. */
  predicate OccursAt(s: string, sub: string, i: nat) {
    i + |sub| <= |s| && s[i..i + |sub|] == sub
  }

  /** `s.includes(sub)`, by a scan from the left: true exactly when `sub` occurs at some index of `s`. */
  predicate Contains(s: string, sub: string)
    ensures Contains(s, sub) <==> exists i: nat :: OccursAt(s, sub, i)
    decreases |s|
  {
    OccursStep(s, sub);
    sub <= s || (s != [] && Contains(s[1..], sub))
  }

  /** An occurrence in `s` is one at index 0, or one in `s[1..]` moved one place right. */
  lemma {:induction false} OccursStep(s: string, sub: string)
    ensures (exists i: nat :: OccursAt(s, sub, i))
        <==> sub <= s || (s != [] && exists i: nat :: OccursAt(s[1..], sub, i))
  {
    if sub <= s {
      assert s[0..|sub|] == sub;
      assert OccursAt(s, sub, 0);
    }
    forall i: nat | s != [] && OccursAt(s[1..], sub, i) ensures OccursAt(s, sub, i + 1) {
      OccursAtShift(s, sub, i + 1);
    }
    forall i: nat | OccursAt(s, sub, i) && !(sub <= s) ensures s != [] && OccursAt(s[1..], sub, i - 1) {
      OccursAtShift(s, sub, i);
    }
  }

  /** A string none of whose characters starts `sub` does not contain `sub`. */
  lemma {:induction false} NotContainsWithoutLead(s: string, sub: string)
    requires sub != []
    requires forall i :: 0 <= i < |s| ==> s[i] != sub[0]
    ensures !Contains(s, sub)
  {
    if s != [] {
      assert s[0] != sub[0];
      assert !(sub <= s);
      NotContainsWithoutLead(s[1..], sub);
    }
  }

  /** `s.split(sep)` for a non-empty separator: cut at each occurrence, left to right, without overlap. */
  function Split(s: string, sep: string): (parts: seq<string>)
    requires sep != []
    ensures |parts| >= 1
    ensures s == [] ==> parts == [""]
    decreases |s|
  {
    if sep <= s then
      [""] + Split(s[|sep|..], sep)
    else if s == [] then
      [""]
    else
      var rest := Split(s[1..], sep);
      [[s[0]] + rest[0]] + rest[1..]
  }

  /** `parts.join(sep)`. */
  function Join(parts: seq<string>, sep: string): string
    requires |parts| >= 1
    decreases |parts|
  {
    if |parts| == 1 then parts[0] else parts[0] + sep + Join(parts[1..], sep)
  }

  /** Joining a piece in front of at least one more inserts the separator after it. */
  lemma {:induction false} JoinCons(head: string, parts: seq<string>, sep: string)
    requires |parts| >= 1
    ensures Join([head] + parts, sep) == head + sep + Join(parts, sep)
  {
    assert ([head] + parts)[1..] == parts;
  }

  /** Joining the pieces with the separator gives back the string that was split. */
  lemma {:induction false} JoinSplit(s: string, sep: string)
    requires sep != []
    ensures Join(Split(s, sep), sep) == s
    decreases |s|
  {
    if sep <= s {
      JoinSplit(s[|sep|..], sep);
      JoinSplitAtSeparator(s, sep);
    } else if s != [] {
      JoinSplit(s[1..], sep);
      JoinSplitPastChar(s, sep);
    }
  }

  /** Split at a leading separator: an empty piece, then the pieces of the rest. */
  lemma {:induction false} SplitAtSeparator(s: string, sep: string)
    requires sep != [] && sep <= s
    ensures Split(s, sep) == [""] + Split(s[|sep|..], sep)
  {
  }

  /** Split past a character that does not start a separator: it joins the first piece of the rest. */
  lemma {:induction false} SplitPastChar(s: string, sep: string)
    requires sep != [] && !(sep <= s) && s != []
    ensures Split(s, sep) == [[s[0]] + Split(s[1..], sep)[0]] + Split(s[1..], sep)[1..]
  {
  }

  /** A string is its first `k` characters followed by the rest. */
  lemma {:induction false} TakeDrop(s: string, k: nat)
    requires k <= |s|
    ensures s == s[..k] + s[k..]
  {
  }

  /** Concatenation regrouped around a first character. */
  lemma {:induction false} ConsRegroup(c: char, a: string, sep: string, b: string)
    ensures [c] + a + sep + b == [c] + (a + sep + b)
  {
  }

  /** The inductive step of JoinSplit at a leading separator. */
  lemma {:induction false} JoinSplitAtSeparator(s: string, sep: string)
    requires sep != [] && sep <= s
    requires Join(Split(s[|sep|..], sep), sep) == s[|sep|..]
    ensures Join(Split(s, sep), sep) == s
  {
    var tail := s[|sep|..];
    var pieces := Split(tail, sep);
    SplitAtSeparator(s, sep);
    JoinCons("", pieces, sep);
    TakeDrop(s, |sep|);
    assert s[..|sep|] == sep;
    assert "" + sep == sep;
  }

  /** The inductive step of JoinSplit past a character that does not start a separator. */
  lemma {:induction false} JoinSplitPastChar(s: string, sep: string)
    requires sep != [] && !(sep <= s) && s != []
    requires Join(Split(s[1..], sep), sep) == s[1..]
    ensures Join(Split(s, sep), sep) == s
  {
    var rest := Split(s[1..], sep);
    var head := [s[0]] + rest[0];
    SplitPastChar(s, sep);
    TakeDrop(s, 1);
    assert s[..1] == [s[0]];
    if |rest| == 1 {
      assert Split(s, sep) == [head];
    } else {
      var more := rest[1..];
      assert rest == [rest[0]] + more;
      JoinCons(head, more, sep);
      JoinCons(rest[0], more, sep);
      ConsRegroup(s[0], rest[0], sep, Join(more, sep));
    }
  }

  /** The first piece of a split is a prefix of the string. */
  lemma {:induction false} SplitHeadIsPrefix(s: string, sep: string)
    requires sep != []
    ensures Split(s, sep)[0] <= s
  {
    if !(sep <= s) && s != [] {
      SplitHeadIsPrefix(s[1..], sep);
    }
  }

  /** No piece of a split contains the separator. */
  lemma {:induction false} SplitPiecesFree(s: string, sep: string)
    requires sep != []
    ensures forall k :: 0 <= k < |Split(s, sep)| ==> !Contains(Split(s, sep)[k], sep)
  {
    var parts := Split(s, sep);
    if sep <= s {
      SplitPiecesFree(s[|sep|..], sep);
      assert parts[1..] == Split(s[|sep|..], sep);
      forall k | 0 <= k < |parts| ensures !Contains(parts[k], sep) {
        if k > 0 {
          assert parts[k] == parts[1..][k - 1];
        }
      }
    } else if s != [] {
      var rest := Split(s[1..], sep);
      SplitPiecesFree(s[1..], sep);
      SplitHeadIsPrefix(s[1..], sep);
      var head := [s[0]] + rest[0];
      assert head <= s;
      if |sep| <= |head| {
        assert head[..|sep|] == s[..|sep|];
      }
      assert !(sep <= head);
      assert head[1..] == rest[0];
      forall k | 0 <= k < |parts| ensures !Contains(parts[k], sep) {
        if k > 0 {
          assert parts[k] == rest[k];
        }
      }
    }
  }

  /** A string without the separator splits into itself alone. */
  lemma {:induction false} SplitWithoutSeparator(s: string, sep: string)
    requires sep != []
    requires !Contains(s, sep)
    ensures Split(s, sep) == [s]
  {
    if s != [] {
      SplitWithoutSeparator(s[1..], sep);
      assert [s[0]] + s[1..] == s;
    }
  }

  /** Split yields a single piece exactly when the separator does not occur. */
  lemma SplitSingleIff(s: string, sep: string)
    requires sep != []
    ensures |Split(s, sep)| == 1 <==> !Contains(s, sep)
  {
    if |Split(s, sep)| == 1 {
      JoinSplit(s, sep);
      SplitPiecesFree(s, sep);
    } else if !Contains(s, sep) {
      SplitWithoutSeparator(s, sep);
    }
  }

  /** No occurrence of `sep` in `s` starts before index `k`. */
  predicate NoOccurrenceBefore(s: string, sep: string, k: nat) {
    forall i: nat :: i < k ==> !OccursAt(s, sep, i)
  }

  /** An occurrence at index `i > 0` of `s` is one at index `i - 1` of `s[1..]`. */
  lemma OccursAtShift(s: string, sep: string, i: nat)
    requires s != [] && i > 0
    ensures OccursAt(s, sep, i) <==> OccursAt(s[1..], sep, i - 1)
  {
    if i + |sep| <= |s| {
      assert s[1..][i - 1..i - 1 + |sep|] == s[i..i + |sep|];
    }
  }

  /** The first piece of a split ends at the leftmost occurrence of the separator. */
  lemma {:induction false} SplitHeadLeftmost(s: string, sep: string)
    requires sep != []
    ensures NoOccurrenceBefore(s, sep, |Split(s, sep)[0]|)
    decreases |s|
  {
    if !(sep <= s) && s != [] {
      SplitHeadLeftmost(s[1..], sep);
      forall i: nat | i < |Split(s, sep)[0]| ensures !OccursAt(s, sep, i) {
        if i > 0 {
          OccursAtShift(s, sep, i);
        }
      }
    }
  }

  /** When no occurrence of the separator starts inside `u`, the first cut falls right after `u`. */
  lemma {:induction false} SplitAfterPrefix(u: string, sep: string, t: string)
    requires sep != []
    requires NoOccurrenceBefore(u + sep + t, sep, |u|)
    ensures Split(u + sep + t, sep) == [u] + Split(t, sep)
    decreases |u|
  {
    var s := u + sep + t;
    if u == [] {
      assert s == sep + t;
      assert s[|sep|..] == t;
    } else {
      assert !OccursAt(s, sep, 0);
      assert !(sep <= s);
      assert s[1..] == u[1..] + sep + t;
      forall i: nat | i < |u| - 1 ensures !OccursAt(s[1..], sep, i) {
        OccursAtShift(s, sep, i + 1);
      }
      SplitAfterPrefix(u[1..], sep, t);
      assert [s[0]] + u[1..] == u;
    }
  }

  /** In particular the cut falls right after `u` when no character of `u` can start the separator. */
  lemma SplitAfterLeadFree(u: string, sep: string, t: string)
    requires sep != []
    requires forall i :: 0 <= i < |u| ==> u[i] != sep[0]
    ensures Split(u + sep + t, sep) == [u] + Split(t, sep)
  {
    var s := u + sep + t;
    forall i: nat | i < |u| ensures !OccursAt(s, sep, i) {
      assert s[i] == u[i];
    }
    SplitAfterPrefix(u, sep, t);
  }
}
