/** Keys for the memcache backend: percent-encoded parts joined with colons, hashed when too long. */
module CacheKeys {
  import opened Wrappers

  const KEY_LENGTH_MAX := 250
  const HASH_LENGTH := 32

  type Byte = b: int | 0 <= b < 256

  // ----- Percent-encoding (sections 2.1 and 2.3 of RFC 3986), space as plus -----

  predicate IsUnreserved(b: int) {
    'A' as int <= b <= 'Z' as int || 'a' as int <= b <= 'z' as int || '0' as int <= b <= '9' as int
    || b == '-' as int || b == '.' as int || b == '_' as int || b == '~' as int
  }

  function HexDigit(d: int): (c: char)
    requires 0 <= d < 16
    ensures IsUnreserved(c as int)
  {
    if d < 10 then ('0' as int + d) as char else ('A' as int + d - 10) as char
  }

  function HexValue(c: char): Option<int> {
    if '0' <= c <= '9' then Some(c as int - '0' as int)
    else if 'A' <= c <= 'F' then Some(c as int - 'A' as int + 10)
    else None
  }

  function QuoteByte(b: Byte): (r: string)
    ensures r != []
  {
    if IsUnreserved(b) then [b as char]
    else if b == ' ' as int then ['+']
    else ['%', HexDigit(b / 16), HexDigit(b % 16)]
  }

  /** cleaned_string, from the UTF-8 bytes of its argument */
  function CleanedString(bytes: seq<Byte>): string {
    if bytes == [] then "" else QuoteByte(bytes[0]) + CleanedString(bytes[1..])
  }

  function Unquote(s: string): Option<seq<Byte>>
    decreases |s|
  {
    if s == "" then Some([])
    else if s[0] == '%' then
      if |s| < 3 then None
      else
        match (HexValue(s[1]), HexValue(s[2]))
        case (Some(high), Some(low)) => Prepend(16 * high + low, Unquote(s[3..]))
        case _ => None
    else if s[0] == '+' then Prepend(' ' as int, Unquote(s[1..]))
    else if IsUnreserved(s[0] as int) then Prepend(s[0] as int, Unquote(s[1..]))
    else None
  }

  function Prepend(b: int, rest: Option<seq<Byte>>): Option<seq<Byte>> {
    if 0 <= b < 256 && rest.Some? then Some([b] + rest.value) else None
  }

  lemma HexRoundTrip(d: int)
    requires 0 <= d < 16
    ensures HexValue(HexDigit(d)) == Some(d)
  {
  }

  /** Encoding loses nothing: decoding gives every byte back. */
  lemma {:induction false} UnquoteOfCleaned(bytes: seq<Byte>)
    ensures Unquote(CleanedString(bytes)) == Some(bytes)
  {
    if bytes != [] {
      UnquoteOfCleaned(bytes[1..]);
      var b, rest := bytes[0], CleanedString(bytes[1..]);
      var s := CleanedString(bytes);
      assert [b] + bytes[1..] == bytes;
      if IsUnreserved(b) {
        assert s[1..] == rest;
      } else if b == ' ' as int {
        assert s[1..] == rest;
      } else {
        HexRoundTrip(b / 16);
        HexRoundTrip(b % 16);
        assert s[3..] == rest;
        assert 16 * (b / 16) + b % 16 == b;
      }
    }
  }

  /** How a byte is written: letters, digits and `-._~` as they are, a space as a plus, any other byte as a percent sign
      and its two hexadecimal digits. */
  lemma QuotedForm(b: Byte)
    ensures var r, c := QuoteByte(b), b as char;
            if 'a' <= c <= 'z' || 'A' <= c <= 'Z' || '0' <= c <= '9' || c in "-._~" then r == [c]
            else if c == ' ' then r == "+"
            else |r| == 3 && r[0] == '%' && HexValue(r[1]).Some? && HexValue(r[2]).Some?
                 && 16 * HexValue(r[1]).value + HexValue(r[2]).value == b
  {
    HexRoundTrip(b / 16);
    HexRoundTrip(b % 16);
    assert "-._~" == ['-', '.', '_', '~'];
  }

  predicate IsKeyChar(c: char) {
    33 <= c as int <= 126
  }

  predicate ColonFree(s: string) {
    forall i :: 0 <= i < |s| ==> IsKeyChar(s[i]) && s[i] != ':'
  }

  /** Encoded text is printable ASCII without colons. */
  lemma {:induction false} CleanedIsColonFree(bytes: seq<Byte>)
    ensures ColonFree(CleanedString(bytes))
  {
    if bytes != [] {
      CleanedIsColonFree(bytes[1..]);
    }
  }

  // ----- safe_key -----

  function Namespace(prefix: seq<Byte>, version: seq<Byte>): string {
    CleanedString(prefix) + ":" + CleanedString(version) + ":"
  }

  function Combined(key: seq<Byte>, prefix: seq<Byte>, version: seq<Byte>): string {
    Namespace(prefix, version) + CleanedString(key)
  }

  predicate NamespaceTooLong(prefix: seq<Byte>, version: seq<Byte>) {
    |Namespace(prefix, version)| + 2 > KEY_LENGTH_MAX - HASH_LENGTH
  }

  predicate IsHashed(key: seq<Byte>, prefix: seq<Byte>, version: seq<Byte>) {
    |Combined(key, prefix, version)| > KEY_LENGTH_MAX
  }

  /** A digest in hexadecimal: 32 printable characters without a colon. */
  ghost predicate IsDigest(hash: string -> string) {
    forall s :: |hash(s)| == HASH_LENGTH && ColonFree(hash(s))
  }

  function CacheKey(key: seq<Byte>, prefix: seq<Byte>, version: seq<Byte>, hash: string -> string): string {
    var combined := Combined(key, prefix, version);
    if !IsHashed(key, prefix, version) then combined
    else if NamespaceTooLong(prefix, version) then hash(combined)
    else Namespace(prefix, version) + hash(combined)
  }

  method SafeKey(key: seq<Byte>, prefix: seq<Byte>, version: seq<Byte>, hash: string -> string)
    returns (combined: string)
    requires IsDigest(hash)
    ensures combined == CacheKey(key, prefix, version, hash)
    ensures |combined| <= KEY_LENGTH_MAX && forall i :: 0 <= i < |combined| ==> IsKeyChar(combined[i])
  {
    CleanedIsColonFree(key);
    CleanedIsColonFree(prefix);
    CleanedIsColonFree(version);
    var keyVersion := CleanedString(prefix) + ":" + CleanedString(version) + ":";
    var prefixTooLong := false;
    if |keyVersion| + 2 > KEY_LENGTH_MAX - HASH_LENGTH {
      prefixTooLong := true;
    }
    combined := keyVersion + CleanedString(key);
    if |combined| > KEY_LENGTH_MAX {
      if prefixTooLong {
        combined := hash(combined);
      } else {
        combined := keyVersion + hash(combined);
      }
    }
  }

  /** What a caller gets: up to 250 characters the three parts as they are, otherwise their digest, with the
      namespace in front of it as long as both fit, with two characters to spare. */
  lemma KeyForm(key: seq<Byte>, prefix: seq<Byte>, version: seq<Byte>, hash: string -> string)
    ensures var namespace := CleanedString(prefix) + ":" + CleanedString(version) + ":";
            var text := namespace + CleanedString(key);
            CacheKey(key, prefix, version, hash)
            == if |text| <= 250 then text
               else if |namespace| + 2 + 32 <= 250 then namespace + hash(text) else hash(text)
  {
  }

  lemma FirstColon(p: string, rest: string, p': string, rest': string)
    requires ColonFree(p) && ColonFree(p')
    requires p + ":" + rest == p' + ":" + rest'
    ensures p == p' && rest == rest'
  {
    var s, s' := p + ":" + rest, p' + ":" + rest';
    assert s[|p|] == ':' && s'[|p'|] == ':';
    assert forall i :: 0 <= i < |p| ==> s[i] == p[i];
    assert forall i :: 0 <= i < |p'| ==> s'[i] == p'[i];
    assert |p| == |p'|;
    assert s[..|p|] == p && s'[..|p'|] == p';
    assert s[|p| + 1..] == rest && s'[|p'| + 1..] == rest';
  }

  lemma CleanedInjective(bytes: seq<Byte>, bytes': seq<Byte>)
    requires CleanedString(bytes) == CleanedString(bytes')
    ensures bytes == bytes'
  {
    UnquoteOfCleaned(bytes);
    UnquoteOfCleaned(bytes');
  }

  lemma NamespaceParts(prefix: seq<Byte>, version: seq<Byte>, last: string)
    ensures Namespace(prefix, version) + last == CleanedString(prefix) + ":" + (CleanedString(version) + ":" + last)
  {
  }

  lemma NamespaceSplits(prefix: seq<Byte>, version: seq<Byte>, last: string, prefix': seq<Byte>, version': seq<Byte>,
                        last': string)
    requires Namespace(prefix, version) + last == Namespace(prefix', version') + last'
    ensures prefix == prefix' && version == version' && last == last'
  {
    CleanedIsColonFree(prefix);
    CleanedIsColonFree(version);
    CleanedIsColonFree(prefix');
    CleanedIsColonFree(version');
    NamespaceParts(prefix, version, last);
    NamespaceParts(prefix', version', last');
    FirstColon(CleanedString(prefix), CleanedString(version) + ":" + last,
               CleanedString(prefix'), CleanedString(version') + ":" + last');
    FirstColon(CleanedString(version), last, CleanedString(version'), last');
    CleanedInjective(prefix, prefix');
    CleanedInjective(version, version');
  }

  /** Keys that are not hashed never collide: equal keys come from equal arguments. */
  lemma UnhashedKeysAreInjective(key: seq<Byte>, prefix: seq<Byte>, version: seq<Byte>,
                                 key': seq<Byte>, prefix': seq<Byte>, version': seq<Byte>, hash: string -> string)
    requires !IsHashed(key, prefix, version) && !IsHashed(key', prefix', version')
    requires CacheKey(key, prefix, version, hash) == CacheKey(key', prefix', version', hash)
    ensures key == key' && prefix == prefix' && version == version'
  {
    NamespaceSplits(prefix, version, CleanedString(key), prefix', version', CleanedString(key'));
    CleanedInjective(key, key');
  }

  /** Even hashed keys stay in their namespace: two callers with different prefixes or versions
      never share an entry, unless a namespace is too long to be kept and both keys are pure hashes. */
  lemma NamespacesNeverMix(key: seq<Byte>, prefix: seq<Byte>, version: seq<Byte>,
                           key': seq<Byte>, prefix': seq<Byte>, version': seq<Byte>, hash: string -> string)
    requires IsDigest(hash)
    requires CacheKey(key, prefix, version, hash) == CacheKey(key', prefix', version', hash)
    ensures (prefix == prefix' && version == version')
            || (IsHashed(key, prefix, version) && NamespaceTooLong(prefix, version)
                && IsHashed(key', prefix', version') && NamespaceTooLong(prefix', version'))
  {
    var pure_, pure' := IsHashed(key, prefix, version) && NamespaceTooLong(prefix, version),
                        IsHashed(key', prefix', version') && NamespaceTooLong(prefix', version');
    if !pure_ && !pure' {
      var last := if IsHashed(key, prefix, version) then hash(Combined(key, prefix, version)) else CleanedString(key);
      var last' := if IsHashed(key', prefix', version') then hash(Combined(key', prefix', version'))
          else CleanedString(key');
      NamespaceSplits(prefix, version, last, prefix', version', last');
    } else if !pure_ {
      HasColon(prefix, version, CacheKey(key, prefix, version, hash));
    } else if !pure' {
      HasColon(prefix', version', CacheKey(key', prefix', version', hash));
    }
  }

  /** What follows the namespace. */
  function LastPart(key: seq<Byte>, prefix: seq<Byte>, version: seq<Byte>, hash: string -> string): string {
    if IsHashed(key, prefix, version) then hash(Combined(key, prefix, version)) else CleanedString(key)
  }

  /** The key is a digest and nothing else. */
  predicate PureHash(key: seq<Byte>, prefix: seq<Byte>, version: seq<Byte>) {
    IsHashed(key, prefix, version) && NamespaceTooLong(prefix, version)
  }

  /** When two callers share an entry, for all arguments. Pure hashes are shared when the digests are equal, and with
      nothing else. All other keys are shared within a namespace only: by two short keys when they are the same, by two
      long ones when their digests are, by a short and a long one when the short one reads like the digest. */
  lemma SharedExactlyWhen(key: seq<Byte>, prefix: seq<Byte>, version: seq<Byte>,
                          key': seq<Byte>, prefix': seq<Byte>, version': seq<Byte>, hash: string -> string)
    requires IsDigest(hash)
    ensures CacheKey(key, prefix, version, hash) == CacheKey(key', prefix', version', hash)
            <==> if PureHash(key, prefix, version) || PureHash(key', prefix', version')
                 then PureHash(key, prefix, version) && PureHash(key', prefix', version')
                      && hash(Combined(key, prefix, version)) == hash(Combined(key', prefix', version'))
                 else prefix == prefix' && version == version'
                      && (match (IsHashed(key, prefix, version), IsHashed(key', prefix', version'))
                          case (false, false) => key == key'
                          case (true, true) => hash(Combined(key, prefix, version))
                              == hash(Combined(key', prefix, version))
                          case (true, false) => CleanedString(key') == hash(Combined(key, prefix, version))
                          case (false, true) => CleanedString(key) == hash(Combined(key', prefix, version)))
  {
    var pure_, pure' := PureHash(key, prefix, version), PureHash(key', prefix', version');
    if pure_ || pure' {
      if !pure_ { HasColon(prefix, version, CacheKey(key, prefix, version, hash)); }
      if !pure' { HasColon(prefix', version', CacheKey(key', prefix', version', hash)); }
    } else if CacheKey(key, prefix, version, hash) == CacheKey(key', prefix', version', hash) {
      NamespaceSplits(prefix, version, LastPart(key, prefix, version, hash), prefix', version',
                      LastPart(key', prefix', version', hash));
      if !IsHashed(key, prefix, version) && !IsHashed(key', prefix', version') { CleanedInjective(key, key'); }
    }
  }

  lemma HasColon(prefix: seq<Byte>, version: seq<Byte>, s: string)
    requires Namespace(prefix, version) <= s
    ensures !ColonFree(s)
  {
    var p := CleanedString(prefix);
    assert Namespace(prefix, version)[|p|] == ':';
    assert s[|p|] == ':';
  }
}
