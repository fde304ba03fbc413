/**
 * Decoding of obfuscated offers. Marker "1" means every text field is Base64 (RFC 4648
 * section 4 alphabet) of UTF-8 text, marker "2" means ROT13 on ASCII letters. A decoded
 * offer replaces the original only when its decoded likelihood label is recognised.
 *
 * The JDK's Base64 decoder followed by UTF-8 decoding is a library call; it appears here
 * as the parameter `base64`, a partial function that is `None` exactly where the JDK
 * decoder throws `IllegalArgumentException`.
 */
module MessageDecoder {
  import opened Wrappers
  import opened Dto
  import opened Probabilities

  /** The cipher markers. */
  const Base64Marker: string := "1"
  const Rot13Marker: string := "2"

  predicate IsLowerLetter(c: char) { 'a' <= c <= 'z' }
  predicate IsUpperLetter(c: char) { 'A' <= c <= 'Z' }

  /** One character of ROT13: letters move 13 places round their own alphabet. */
  function Rot13Char(c: char): (r: char)
    ensures IsLowerLetter(c) <==> IsLowerLetter(r)
    ensures IsUpperLetter(c) <==> IsUpperLetter(r)
    ensures !IsLowerLetter(c) && !IsUpperLetter(c) ==> r == c
    ensures r != c <==> IsLowerLetter(c) || IsUpperLetter(c)
  {
    if IsLowerLetter(c) then ('a' as int + (c as int - 'a' as int + 13) % 26) as char
    else if IsUpperLetter(c) then ('A' as int + (c as int - 'A' as int + 13) % 26) as char
    else c
  }

  /** ROT13 of a whole string, character by character. */
  function Rot13(s: string): (r: string)
    ensures |r| == |s|
    ensures forall i :: 0 <= i < |s| ==> r[i] == Rot13Char(s[i])
  {
    seq(|s|, i requires 0 <= i < |s| => Rot13Char(s[i]))
  }

  lemma Rot13CharInvolution(c: char)
    ensures Rot13Char(Rot13Char(c)) == c
  {
    var d := Rot13Char(c);
    if IsLowerLetter(c) {
      if c < 'n' {
        assert d as int == c as int + 13;
      } else {
        assert d as int == c as int - 13;
      }
    } else if IsUpperLetter(c) {
      if c < 'N' {
        assert d as int == c as int + 13;
      } else {
        assert d as int == c as int - 13;
      }
    }
  }

  /** ROT13 is its own inverse. */
  lemma Rot13Involution(s: string)
    ensures Rot13(Rot13(s)) == s
  {
    forall i | 0 <= i < |s| ensures Rot13(Rot13(s))[i] == s[i] {
      Rot13CharInvolution(s[i]);
    }
  }

  /** ROT13 keeps the length and the case of every letter and leaves non-letters alone. */
  lemma Rot13Shape(s: string)
    ensures |Rot13(s)| == |s|
    ensures forall i :: 0 <= i < |s| ==>
      (IsLowerLetter(s[i]) <==> IsLowerLetter(Rot13(s)[i])) &&
      (IsUpperLetter(s[i]) <==> IsUpperLetter(Rot13(s)[i])) &&
      (!IsLowerLetter(s[i]) && !IsUpperLetter(s[i]) ==> Rot13(s)[i] == s[i])
  {
  }

  /** `decryptRot13String`: null stays null; otherwise the string is rebuilt one character at a time. */
  method DecryptRot13String(encrypted: Option<string>) returns (decrypted: Option<string>)
    ensures encrypted.None? <==> decrypted.None?
    ensures encrypted.Some? ==> decrypted.value == Rot13(encrypted.value)
  {
    if encrypted.None? {
      return None;
    }
    var s := encrypted.value;
    var out: string := [];
    var i := 0;
    while i < |s|
      invariant 0 <= i <= |s|
      invariant |out| == i
      invariant forall j :: 0 <= j < i ==> out[j] == Rot13Char(s[j])
    {
      var c := s[i];
      if 'a' <= c <= 'z' {
        out := out + [('a' as int + (c as int - 'a' as int + 13) % 26) as char];
      } else if 'A' <= c <= 'Z' {
        out := out + [('A' as int + (c as int - 'A' as int + 13) % 26) as char];
      } else {
        out := out + [c];
      }
      i := i + 1;
    }
    return Some(out);
  }

  /** ROT13 applied to a field that may be null. */
  function Rot13Field(encrypted: Option<string>): (r: Option<string>)
    ensures encrypted.None? <==> r.None?
    ensures r.Some? ==> Rot13(r.value) == encrypted.value
  {
    match encrypted
    case None => None
    case Some(s) => Rot13Involution(s); Some(Rot13(s))
  }

  /** `decryptBase64String`: null stays null; malformed input comes back unchanged. */
  function DecryptBase64String(encrypted: Option<string>, base64: string -> Option<string>): (r: Option<string>)
    ensures encrypted.None? <==> r.None?
    ensures r.Some? ==>
      (Some(r.value) == base64(encrypted.value) || (base64(encrypted.value).None? && r == encrypted))
  {
    match encrypted
    case None => None
    case Some(s) =>
      match base64(s)
      case Some(d) => Some(d)
      case None => Some(s)
  }

  /** The three text fields after decoding with the marker's cipher; `None` for an unknown marker. */
  function DecodeFields(message: Message, base64: string -> Option<string>)
    : (r: Option<(Option<string>, Option<string>, Option<string>)>)
    requires message.encrypted.Some?
    ensures r.Some? <==> message.encrypted.value in {Base64Marker, Rot13Marker}
  {
    var marker := message.encrypted.value;
    if marker == Base64Marker then
      Some((DecryptBase64String(message.adId, base64),
            DecryptBase64String(message.message, base64),
            DecryptBase64String(message.probability, base64)))
    else if marker == Rot13Marker then
      Some((Rot13Field(message.adId), Rot13Field(message.message), Rot13Field(message.probability)))
    else None
  }

  /**
   * `decode`: null gives empty; a plain or unknown-marker offer comes back as it is; a
   * decoded offer is produced only when its decoded label is recognised, and otherwise
   * the original, still encoded offer comes back.
   */
  function Decode(message: Option<Message>, base64: string -> Option<string>): (r: Option<Message>)
    ensures message.None? <==> r.None?
    ensures r.Some? ==>
      (r == message ||
       (r.value.encrypted.None? && message.value.encrypted.Some? &&
        r.value.reward == message.value.reward && r.value.expiresIn == message.value.expiresIn &&
        FromLabel(r.value.probability).Some?))
  {
    match message
    case None => None
    case Some(m) =>
      if m.encrypted.None? then Some(m)
      else
        match DecodeFields(m, base64)
        case None => Some(m)
        case Some((adId, msg, prob)) =>
          match FromLabel(prob)
          case Some(p) =>
            FromLabelOfLabel(p);
            Some(Message(adId, msg, m.reward, m.expiresIn, Some(Label(p)), None))
          case None => Some(m)
  }

  /** An offer without a marker is returned as it is. */
  lemma DecodePlain(m: Message, base64: string -> Option<string>)
    requires m.encrypted.None?
    ensures Decode(Some(m), base64) == Some(m)
  {
  }

  /** An offer with a marker other than "1" and "2" is returned as it is. */
  lemma DecodeUnknownMarker(m: Message, base64: string -> Option<string>)
    requires m.encrypted.Some? && m.encrypted.value != Base64Marker && m.encrypted.value != Rot13Marker
    ensures Decode(Some(m), base64) == Some(m)
  {
  }

  /** ROT13 offer: if the decoded label is recognised the decoded offer comes back with the
      level's canonical label and no marker, otherwise the original offer. */
  lemma DecodeRot13(m: Message, base64: string -> Option<string>)
    requires m.encrypted == Some(Rot13Marker)
    ensures var prob := Rot13Field(m.probability);
      Decode(Some(m), base64) == match FromLabel(prob)
        case Some(p) => Some(Message(Rot13Field(m.adId), Rot13Field(m.message), m.reward, m.expiresIn, Some(Label(p)), None))
        case None => Some(m)
  {
    assert m.encrypted.value != Base64Marker;
    assert DecodeFields(m, base64) == Some((Rot13Field(m.adId), Rot13Field(m.message), Rot13Field(m.probability)));
  }

  /** Base64 offer: the same rule, with each field Base64-decoded (malformed fields kept). */
  lemma DecodeBase64(m: Message, base64: string -> Option<string>)
    requires m.encrypted == Some(Base64Marker)
    ensures var prob := DecryptBase64String(m.probability, base64);
      Decode(Some(m), base64) == match FromLabel(prob)
        case Some(p) => Some(Message(DecryptBase64String(m.adId, base64), DecryptBase64String(m.message, base64),
                                     m.reward, m.expiresIn, Some(Label(p)), None))
        case None => Some(m)
  {
  }

  /** Decoding is all or nothing: either the original comes back, or every field is decoded. */
  lemma {:induction false} DecodeAllOrNothing(m: Message, base64: string -> Option<string>)
    ensures var r := Decode(Some(m), base64).value;
      r == m || (m.encrypted.Some? && r.encrypted.None? && FromLabel(r.probability).Some? &&
        var f := DecodeFields(m, base64).value;
        r.adId == f.0 && r.message == f.1 && FromLabel(f.2) == FromLabel(r.probability))
  {
    var r := Decode(Some(m), base64).value;
    if r != m {
      var f := DecodeFields(m, base64).value;
      var p := FromLabel(f.2).value;
      FromLabelOfLabel(p);
    }
  }

  /** A decoder that rejects everything leaves every Base64 offer unchanged unless its raw
      label is itself recognised. */
  lemma DecodeMalformedBase64(m: Message)
    requires m.encrypted == Some(Base64Marker)
    requires FromLabel(m.probability).None?
    ensures Decode(Some(m), (s: string) => None) == Some(m)
  {
  }
}
