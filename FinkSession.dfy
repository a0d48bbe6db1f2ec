/**
 * Fink session ids: the text `<uuid>::<tag>`, where the tag is one of three
 * fixed statuses. Encoding concatenates; decoding splits on `::` and never
 * fails. The uuid, generated by the runtime in the original, is a parameter.
 */
module FinkSession {
  import opened Wrappers
  import opened JsText

  /** The closed set of statuses a session id can carry. */
  datatype SessionTag = Succeeded | InvalidAccount | AccountBlocked

  /** The wire text of a tag. */
  function TagText(tag: SessionTag): string {
    match tag
    case Succeeded => "SUCCESS"
    case InvalidAccount => "INVALID_ACCOUNT"
    case AccountBlocked => "ACCOUNT_BLOCKED"
  }

  /** Recognises the wire text of a tag; any other text is not a tag. */
  function ParseTag(text: string): (r: Option<SessionTag>)
    ensures r.Some? ==> TagText(r.value) == text
    ensures forall tag :: TagText(tag) == text ==> r == Some(tag)
  {
    if text == "SUCCESS" then Some(Succeeded)
    else if text == "INVALID_ACCOUNT" then Some(InvalidAccount)
    else if text == "ACCOUNT_BLOCKED" then Some(AccountBlocked)
    else None
  }

  const Separator: string := "::"

  /** No character of `s` is a colon. */
  predicate ColonFree(s: string) {
    forall i :: 0 <= i < |s| ==> s[i] != ':'
  }

  predicate IsLowerHex(c: char) {
    '0' <= c <= '9' || 'a' <= c <= 'f'
  }

  /** The text form of a UUID as the runtime's `randomUUID` writes it: 8-4-4-4-12 lower-case hex digits joined by hyphens. */
  predicate IsUuidText(u: string) {
    && |u| == 36
    && forall i :: 0 <= i < 36 ==>
         if i == 8 || i == 13 || i == 18 || i == 23 then u[i] == '-' else IsLowerHex(u[i])
  }

  /** Every tag's text is free of colons, so it cannot contain the separator. */
  lemma TagTextColonFree(tag: SessionTag)
    ensures ColonFree(TagText(tag))
  {
  }

  /** UUID text is colon-free. */
  lemma UuidTextColonFree(u: string)
    requires IsUuidText(u)
    ensures ColonFree(u)
  {
    forall i | 0 <= i < |u| ensures u[i] != ':' {
      if !(i == 8 || i == 13 || i == 18 || i == 23) {
        assert IsLowerHex(u[i]);
      }
    }
  }

  /** `encodeSessionId`: the uuid, the separator, then the tag's text. */
  function EncodeSessionId(uuid: string, tag: SessionTag): (id: string)
    ensures |id| == |uuid| + 2 + |TagText(tag)|
    ensures uuid <= id
    ensures EndsWith(id, Separator + TagText(tag))
  {
    uuid + Separator + TagText(tag)
  }

  /** What decoding yields: the uuid part, and the tag when one was recognised. */
  datatype DecodedSession = DecodedSession(uuid: string, tag: Option<SessionTag>)

  /**
   * `decodeSessionId`: split on the separator; unless there are exactly two
   * pieces the whole input comes back as the uuid with no tag; with two
   * pieces the first is the uuid and the second must be a tag's text.
   */
  function DecodeSessionId(sessionId: string): (r: DecodedSession)
    ensures r.uuid <= sessionId
    ensures r.tag.Some? ==> EncodeSessionId(r.uuid, r.tag.value) == sessionId
  {
    var parts := Split(sessionId, Separator);
    JoinSplit(sessionId, Separator);
    SplitHeadIsPrefix(sessionId, Separator);
    if |parts| != 2 then
      DecodedSession(sessionId, None)
    else
      assert Join(parts, Separator) == parts[0] + Separator + parts[1];
      DecodedSession(parts[0], ParseTag(parts[1]))
  }

  /** Round trip: a colon-free uuid and any tag come back from decoding unchanged. */
  lemma DecodeEncode(uuid: string, tag: SessionTag)
    requires ColonFree(uuid)
    ensures DecodeSessionId(EncodeSessionId(uuid, tag)) == DecodedSession(uuid, Some(tag))
  {
    var text := TagText(tag);
    SplitAfterLeadFree(uuid, Separator, text);
    TagTextColonFree(tag);
    NotContainsWithoutLead(text, Separator);
    SplitWithoutSeparator(text, Separator);
  }

  /** The round trip holds for every uuid the runtime generates. */
  lemma DecodeEncodeUuid(uuid: string, tag: SessionTag)
    requires IsUuidText(uuid)
    ensures DecodeSessionId(EncodeSessionId(uuid, tag)) == DecodedSession(uuid, Some(tag))
  {
    UuidTextColonFree(uuid);
    DecodeEncode(uuid, tag);
  }

  /** No tag's text starts with a colon. */
  lemma {:induction false} ColonPrefixedNotTag(text: string)
    ensures ParseTag(":" + text).None?
  {
    var tail := ":" + text;
    forall other: SessionTag ensures TagText(other) != tail {
      TagTextColonFree(other);
      assert TagText(other)[0] != ':';
    }
  }

  /** A colon followed by colon-free text is a single piece. */
  lemma {:induction false} ColonPrefixedSingle(text: string)
    requires ColonFree(text)
    ensures Split(":" + text, Separator) == [":" + text]
  {
    var tail := ":" + text;
    NotContainsWithoutLead(text, Separator);
    assert tail[1..] == text;
    if |tail| >= 2 {
      assert tail[1] == text[0] != ':';
    }
    assert !(Separator <= tail);
    SplitWithoutSeparator(tail, Separator);
  }

  /**
   * Colon-freedom is needed: when the uuid ends in a colon, the cut moves one
   * place left, the uuid loses its colon and the tag is not recognised.
   */
  lemma {:induction false} DecodeEncodeTrailingColon(prefix: string, tag: SessionTag)
    requires ColonFree(prefix)
    ensures DecodeSessionId(EncodeSessionId(prefix + ":", tag)) == DecodedSession(prefix, None)
  {
    var tail := ":" + TagText(tag);
    TagTextColonFree(tag);
    ColonPrefixedSingle(TagText(tag));
    ColonPrefixedNotTag(TagText(tag));
    SplitAfterLeadFree(prefix, Separator, tail);
    assert EncodeSessionId(prefix + ":", tag) == prefix + Separator + tail;
  }

  /** A string without the separator decodes to itself with no tag. */
  lemma DecodeWithoutSeparator(sessionId: string)
    requires !Contains(sessionId, Separator)
    ensures DecodeSessionId(sessionId) == DecodedSession(sessionId, None)
  {
    SplitWithoutSeparator(sessionId, Separator);
  }

  /** Three or more pieces (two or more separators) also decode to the whole input with no tag. */
  lemma DecodeManySeparators(sessionId: string)
    requires |Split(sessionId, Separator)| > 2
    ensures DecodeSessionId(sessionId) == DecodedSession(sessionId, None)
  {
  }

  /** Exactly one cut but an unknown suffix: the part before the cut, with no tag. */
  lemma DecodeUnknownTag(sessionId: string)
    requires |Split(sessionId, Separator)| == 2
    requires ParseTag(Split(sessionId, Separator)[1]).None?
    ensures DecodeSessionId(sessionId) == DecodedSession(Split(sessionId, Separator)[0], None)
  {
  }

  /**
   * A uuid that survives the round trip: it holds no separator and does not
   * end in a colon, so no occurrence of the separator starts inside it.
   */
  predicate CleanUuid(u: string) {
    !Contains(u, Separator) && !EndsWith(u, ":")
  }

  /** Colon-free text is clean. */
  lemma ColonFreeClean(u: string)
    requires ColonFree(u)
    ensures CleanUuid(u)
  {
    NotContainsWithoutLead(u, Separator);
    if u != [] {
      assert u[|u| - 1..] == [u[|u| - 1]];
    }
  }

  /** After a clean uuid, the first occurrence of the separator is the one that follows it. */
  lemma {:induction false} CleanUuidNoEarlierCut(u: string, t: string)
    requires CleanUuid(u)
    ensures NoOccurrenceBefore(u + Separator + t, Separator, |u|)
  {
    var s := u + Separator + t;
    forall i: nat | i < |u| ensures !OccursAt(s, Separator, i) {
      if i + 1 < |u| {
        assert s[i..i + 2] == u[i..i + 2];
        assert !OccursAt(u, Separator, i);
      } else {
        assert u[|u| - 1..] == [u[|u| - 1]];
        assert s[i..i + 2][0] == s[i] == u[|u| - 1] != ':';
      }
    }
  }

  /** Round trip for every clean uuid. */
  lemma {:induction false} DecodeEncodeClean(uuid: string, tag: SessionTag)
    requires CleanUuid(uuid)
    ensures DecodeSessionId(EncodeSessionId(uuid, tag)) == DecodedSession(uuid, Some(tag))
  {
    var text := TagText(tag);
    CleanUuidNoEarlierCut(uuid, text);
    SplitAfterPrefix(uuid, Separator, text);
    TagTextColonFree(tag);
    NotContainsWithoutLead(text, Separator);
    SplitWithoutSeparator(text, Separator);
  }

  /** The uuid of a recognised session id is clean. */
  lemma {:induction false} DecodedUuidClean(sessionId: string)
    requires DecodeSessionId(sessionId).tag.Some?
    ensures CleanUuid(DecodeSessionId(sessionId).uuid)
  {
    var d := DecodeSessionId(sessionId);
    var parts := Split(sessionId, Separator);
    assert |parts| == 2 && d.uuid == parts[0];
    SplitPiecesFree(sessionId, Separator);
    assert !Contains(parts[0], Separator);
    SplitHeadLeftmost(sessionId, Separator);
    LastNotColon(sessionId, d.uuid, TagText(d.tag.value));
  }

  /** When the first separator follows `u`, the last character of `u` is not a colon. */
  lemma {:induction false} LastNotColon(s: string, u: string, t: string)
    requires s == u + Separator + t
    requires NoOccurrenceBefore(s, Separator, |u|)
    ensures !EndsWith(u, ":")
  {
    if u != [] {
      var k := |u| - 1;
      assert !OccursAt(s, Separator, k);
      assert s[k..k + 2] == [u[k], ':'];
      assert u[k..] == [u[k]];
    }
  }

  /**
   * Decoding recognises exactly the encodings of clean uuids: it yields a
   * tag precisely for the strings `u::t` with `u` clean and `t` a tag's text.
   */
  lemma DecodeRecognisesEncodings(sessionId: string, tag: SessionTag)
    ensures DecodeSessionId(sessionId).tag == Some(tag) <==>
              exists u :: CleanUuid(u) && sessionId == EncodeSessionId(u, tag)
  {
    if DecodeSessionId(sessionId).tag == Some(tag) {
      DecodedUuidClean(sessionId);
      var u := DecodeSessionId(sessionId).uuid;
      assert CleanUuid(u) && sessionId == EncodeSessionId(u, tag);
    }
    forall u | CleanUuid(u) && sessionId == EncodeSessionId(u, tag)
      ensures DecodeSessionId(sessionId).tag == Some(tag)
    {
      DecodeEncodeClean(u, tag);
    }
  }
}
