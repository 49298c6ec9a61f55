/** The data-URI prefix `^data:(image\/[a-zA-Z0-9.+-]+);base64,` that both
    the analysis handler and the object-storage upload read an image's media
    type from and strip before the base64 payload. */
module DataUri {
  import opened Common
  import opened Text

  /** The character class `[a-zA-Z0-9.+-]`. */
  predicate IsSubtypeChar(c: char) {
    'a' <= c <= 'z' || 'A' <= c <= 'Z' || '0' <= c <= '9' || c == '.' || c == '+' || c == '-'
  }

  predicate IsSubtype(s: string) {
    |s| > 0 && forall k :: 0 <= k < |s| ==> IsSubtypeChar(s[k])
  }

  const Head: string := "data:image/"
  const Tail: string := ";base64,"

  /** `s` is `data:image/<sub>;base64,<rest>`. */
  ghost predicate IsDataUri(s: string, sub: string, rest: string) {
    IsSubtype(sub) && s == Head + sub + Tail + rest
  }

  /** Length of the longest prefix drawn from the class (the greedy `+`). */
  function SubtypeRun(s: string): (n: nat)
    ensures n <= |s|
    ensures forall k :: 0 <= k < n ==> IsSubtypeChar(s[k])
    ensures n < |s| ==> !IsSubtypeChar(s[n])
  {
    if |s| == 0 || !IsSubtypeChar(s[0]) then 0 else 1 + SubtypeRun(s[1..])
  }

  lemma {:induction false} SubtypeRunOf(sub: string, tail: string)
    requires forall k :: 0 <= k < |sub| ==> IsSubtypeChar(sub[k])
    requires |tail| > 0 && !IsSubtypeChar(tail[0])
    ensures SubtypeRun(sub + tail) == |sub|
  {
    if |sub| > 0 {
      assert (sub + tail)[1..] == sub[1..] + tail;
      SubtypeRunOf(sub[1..], tail);
    }
  }

  /** The regular-expression match: the media type `image/<sub>` and the text
      after the prefix, or None when the prefix is absent. */
  function Match(s: string): (r: Option<(string, string)>)
    ensures r.Some? ==>
      (|r.value.0| > 6 && r.value.0[..6] == "image/" && IsDataUri(s, r.value.0[6..], r.value.1))
  {
    if !StartsWith(s, Head) then None
    else
      var t := s[|Head|..];
      var n := SubtypeRun(t);
      assert s == Head + t;
      if n > 0 && StartsWith(t[n..], Tail) then
        var sub, rest := t[..n], t[n..][|Tail|..];
        assert t == sub + Tail + rest;
        assert ("image/" + sub)[6..] == sub;
        Some(("image/" + sub, rest))
      else None
  }

  /** The match finds every data URI: whenever the prefix is there, the
      match reports exactly its subtype and payload. */
  lemma MatchComplete(s: string, sub: string, rest: string)
    requires IsDataUri(s, sub, rest)
    ensures Match(s) == Some(("image/" + sub, rest))
  {
    assert s[..|Head|] == Head;
    var t := s[|Head|..];
    assert t == sub + (Tail + rest);
    SubtypeRunOf(sub, Tail + rest);
    assert t[..|sub|] == sub;
    assert t[|sub|..] == Tail + rest;
    assert t[|sub|..][..|Tail|] == Tail;
  }

  /** `match?.[1] ?? 'image/jpeg'` (equivalently `|| 'image/jpeg'`: a match
      is never empty). */
  function MediaType(s: string): (m: string)
    ensures forall sub, rest :: IsDataUri(s, sub, rest) ==> m == "image/" + sub
    ensures (forall sub, rest :: !IsDataUri(s, sub, rest)) ==> m == "image/jpeg"
  {
    assert forall sub, rest :: IsDataUri(s, sub, rest) ==> Match(s) == Some(("image/" + sub, rest)) by {
      forall sub, rest | IsDataUri(s, sub, rest) ensures Match(s) == Some(("image/" + sub, rest)) {
        MatchComplete(s, sub, rest);
      }
    }
    match Match(s)
    case Some((mt, _)) => mt
    case None => "image/jpeg"
  }

  /** `s.replace(prefixRegex, '')`: the payload after the prefix, or `s`
      unchanged when it has none. */
  function StripPrefix(s: string): (b: string)
    ensures forall sub, rest :: IsDataUri(s, sub, rest) ==> b == rest
    ensures (forall sub, rest :: !IsDataUri(s, sub, rest)) ==> b == s
  {
    assert forall sub, rest :: IsDataUri(s, sub, rest) ==> Match(s) == Some(("image/" + sub, rest)) by {
      forall sub, rest | IsDataUri(s, sub, rest) ensures Match(s) == Some(("image/" + sub, rest)) {
        MatchComplete(s, sub, rest);
      }
    }
    match Match(s)
    case Some((_, rest)) => rest
    case None => s
  }

  /** The prefix is parsed unambiguously. */
  lemma Unique(s: string, sub: string, rest: string, sub': string, rest': string)
    requires IsDataUri(s, sub, rest) && IsDataUri(s, sub', rest')
    ensures sub == sub' && rest == rest'
  {
    var t := s[|Head|..];
    assert t == sub + (Tail + rest) && t == sub' + (Tail + rest');
    SubtypeRunOf(sub, Tail + rest);
    SubtypeRunOf(sub', Tail + rest');
    assert sub == t[..|sub|] && sub' == t[..|sub'|];
    assert rest == t[|sub| + |Tail|..] && rest' == t[|sub'| + |Tail|..];
  }

  /** Stripping a data URI and rebuilding it gives the input back: the prefix
      and the payload partition the text. */
  lemma StripRoundTrip(sub: string, payload: string)
    requires IsSubtype(sub)
    ensures MediaType(Head + sub + Tail + payload) == "image/" + sub
    ensures Head + sub + Tail + StripPrefix(Head + sub + Tail + payload) == Head + sub + Tail + payload
  {
    assert IsDataUri(Head + sub + Tail + payload, sub, payload);
  }
}
