/** The field encryption wire format (src/utils/encryption.ts): a value is
    stored as the hex encoding of a 16-byte IV, a colon, and the AES-CBC
    cipher text of the UTF-8 string under a key that is the SHA-256 digest
    of an identity string. AES and SHA-256 themselves are parameters. */
module Encryption {
  import opened Wrappers

  newtype byte = x: int | 0 <= x < 256

  /** A 128-bit initialisation vector. */
  type Iv = s: seq<byte> | |s| == 16 witness seq(16, _ => 0 as byte)

  /** The signed-in user as `getKey` sees it. */
  datatype User = User(uid: string, email: Option<string>)

  /** The cipher library: SHA-256 of a string, AES-256-CBC with PKCS#7
      padding to Base64 and back, and the legacy decryption of a Base64
      string that carries its own salt. A decryption that `None` answers is
      one that throws (for instance on malformed UTF-8). */
  datatype CryptoSuite = CryptoSuite(
    sha256: string -> seq<byte>,
    aesEncrypt: (seq<byte>, Iv, string) -> string,
    aesDecrypt: (seq<byte>, seq<byte>, string) -> Option<string>,
    legacyDecrypt: (seq<byte>, string) -> Option<string>)

  /** The cipher round trip: decrypting with the same key and IV gives back
      the plain text. */
  ghost predicate RoundTrips(suite: CryptoSuite) {
    forall key: seq<byte>, iv: Iv, plain: string ::
      suite.aesDecrypt(key, iv, suite.aesEncrypt(key, iv, plain)) == Some(plain)
  }

  // ---------------------------------------------------------------------
  // Hex (`CryptoJS.enc.Hex`)

  predicate IsHexDigit(c: char) {
    ('0' <= c <= '9') || ('a' <= c <= 'f') || ('A' <= c <= 'F')
  }

  function HexChar(n: int): (c: char)
    requires 0 <= n < 16
    ensures IsHexDigit(c) && c != ':'
  {
    if n < 10 then ('0' as int + n) as char else ('a' as int + n - 10) as char
  }

  function HexValue(c: char): (n: int)
    requires IsHexDigit(c)
    ensures 0 <= n < 16
  {
    if c <= '9' then c as int - '0' as int
    else if c <= 'F' then c as int - 'A' as int + 10
    else c as int - 'a' as int + 10
  }

  /** `Hex.stringify`: two lower-case digits per byte, high nibble first. */
  function HexEncode(bs: seq<byte>): (r: string)
    ensures |r| == 2 * |bs|
    ensures forall i :: 0 <= i < |r| ==> IsHexDigit(r[i]) && r[i] != ':'
  {
    if bs == [] then []
    else [HexChar(bs[0] as int / 16), HexChar(bs[0] as int % 16)] + HexEncode(bs[1..])
  }

  /** `Hex.parse` on well-formed input: pairs of hex digits. Anything else
      is `None`. */
  function HexDecode(s: string): (r: Option<seq<byte>>)
    ensures r.Some? ==> 2 * |r.value| == |s|
    decreases |s|
  {
    if s == [] then Some([])
    else if |s| < 2 || !IsHexDigit(s[0]) || !IsHexDigit(s[1]) then None
    else match HexDecode(s[2..])
      case None => None
      case Some(rest) => Some([(HexValue(s[0]) * 16 + HexValue(s[1])) as byte] + rest)
  }

  lemma {:induction false} HexRoundTrip(bs: seq<byte>)
    ensures HexDecode(HexEncode(bs)) == Some(bs)
  {
    if bs != [] {
      var s := HexEncode(bs);
      assert s[2..] == HexEncode(bs[1..]);
      HexRoundTrip(bs[1..]);
      assert bs == [bs[0]] + bs[1..];
    }
  }

  // ---------------------------------------------------------------------
  // The colon split

  /** `s.indexOf(c)`, with -1 as `None`. */
  function IndexOf(s: string, c: char): (r: Option<nat>)
    ensures r.None? <==> c !in s
    ensures r.Some? ==> r.value < |s| && s[r.value] == c && c !in s[..r.value]
  {
    if s == [] then None
    else if s[0] == c then Some(0)
    else match IndexOf(s[1..], c)
      case None => None
      case Some(k) =>
        assert s[..k + 1] == [s[0]] + s[1..][..k];
        Some(k + 1)
  }

  /** A string that starts with a colon-free prefix and a colon splits right
      after that prefix, whatever follows. */
  lemma {:induction false} IndexOfAfterPrefix(p: string, rest: string)
    requires ':' !in p
    ensures IndexOf(p + ":" + rest, ':') == Some(|p|)
  {
    var s := p + ":" + rest;
    assert s[|p|] == ':';
    assert s[..|p|] == p;
  }

  /** An `encrypt` output splits at its first colon into the IV's hex and
      the cipher text. */
  lemma SplitEncoded(iv: Iv, ct: string)
    ensures var s := HexEncode(iv) + ":" + ct;
      && IndexOf(s, ':') == Some(32)
      && s[..32] == HexEncode(iv)
      && s[33..] == ct
  {
    IndexOfAfterPrefix(HexEncode(iv), ct);
  }

  // ---------------------------------------------------------------------
  // The service

  /** The identity string hashed into the key: `uid:email:salt` for a user
      with a non-empty uid (a missing email reads as ""), the salt alone
      otherwise. */
  function KeySource(user: Option<User>, salt: string): (r: string)
    ensures user.None? || user.value.uid == [] ==> r == salt
    ensures user.Some? && user.value.uid != [] ==> |r| > |user.value.uid| && r[..|user.value.uid|] == user.value.uid
  {
    if user.Some? && user.value.uid != [] then
      var r := user.value.uid + ":" + user.value.email.GetOr("") + ":" + salt;
      assert r[..|user.value.uid|] == user.value.uid;
      r
    else salt
  }

  /** For a uid without a colon, the key string's first colon ends the uid,
      so users with different uids hash different strings. */
  lemma KeySourceSeparatesUsers(u: User, salt: string)
    requires u.uid != [] && ':' !in u.uid
    ensures IndexOf(KeySource(Some(u), salt), ':') == Some(|u.uid|)
  {
    IndexOfAfterPrefix(u.uid, u.email.GetOr("") + ":" + salt);
    assert u.uid + ":" + u.email.GetOr("") + ":" + salt == u.uid + ":" + (u.email.GetOr("") + ":" + salt);
  }

  lemma KeySourceExamples()
    ensures KeySource(Some(User("u1", Some("a@b.c"))), "pepper") == "u1:a@b.c:pepper"
    ensures KeySource(Some(User("u1", None)), "pepper") == "u1::pepper"
    ensures KeySource(Some(User("", Some("a@b.c"))), "pepper") == "pepper"
    ensures KeySource(None, "pepper") == "pepper"
  {
  }

  /** `getKey`. */
  function GetKey(suite: CryptoSuite, user: Option<User>, salt: string): seq<byte> {
    suite.sha256(KeySource(user, salt))
  }

  /** `encrypt`: the empty string passes through; anything else becomes
      `ivHex:ciphertext`. `iv` is the fresh random IV. */
  function Encrypt(suite: CryptoSuite, key: seq<byte>, iv: Iv, plain: string): (r: string)
    ensures plain == [] <==> r == []
    ensures plain != [] ==> |r| > 32 && r[32] == ':' && HexDecode(r[..32]) == Some(iv)
    ensures plain != [] ==> r[33..] == suite.aesEncrypt(key, iv, plain)
  {
    if plain == [] then plain
    else
      var r := HexEncode(iv) + ":" + suite.aesEncrypt(key, iv, plain);
      assert r[..32] == HexEncode(iv);
      HexRoundTrip(iv);
      r
  }

  /** `decrypt`: the empty string passes through; without a colon the
      legacy path is taken; otherwise the IV is read from the hex before the
      first colon. `None` stands for a thrown exception; a malformed IV is
      treated as one. */
  function Decrypt(suite: CryptoSuite, key: seq<byte>, encoded: string): (r: Option<string>)
    ensures encoded == [] ==> r == Some([])
    ensures encoded != [] && ':' !in encoded ==> r == suite.legacyDecrypt(key, encoded)
    ensures ':' in encoded ==>
      var i := IndexOf(encoded, ':').value;
      && (HexDecode(encoded[..i]).None? ==> r.None?)
      && (HexDecode(encoded[..i]).Some? ==> r == suite.aesDecrypt(key, HexDecode(encoded[..i]).value, encoded[i + 1..]))
  {
    if encoded == [] then Some(encoded)
    else match IndexOf(encoded, ':')
      case None => suite.legacyDecrypt(key, encoded)
      case Some(i) =>
        match HexDecode(encoded[..i])
        case None => None
        case Some(iv) => suite.aesDecrypt(key, iv, encoded[i + 1..])
  }

  /** The split is at the first colon only: a cipher text with colons of its
      own reaches the cipher whole, under the IV written before it. */
  lemma DecryptAtFirstColon(suite: CryptoSuite, key: seq<byte>, iv: Iv, body: string)
    ensures Decrypt(suite, key, HexEncode(iv) + ":" + body) == suite.aesDecrypt(key, iv, body)
  {
    SplitEncoded(iv, body);
    HexRoundTrip(iv);
  }

  /** Under the cipher round trip, decrypting with the same key what was
      encrypted gives back the plain text, empty or not. */
  lemma DecryptEncrypt(suite: CryptoSuite, key: seq<byte>, iv: Iv, plain: string)
    requires RoundTrips(suite)
    ensures Decrypt(suite, key, Encrypt(suite, key, iv, plain)) == Some(plain)
  {
    if plain != [] {
      var ct := suite.aesEncrypt(key, iv, plain);
      SplitEncoded(iv, ct);
      HexRoundTrip(iv);
    }
  }
}
