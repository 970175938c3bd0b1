/** API-key credentials: minting (internal/auth/mint.go), parsing, verification
    and token dispatch (internal/auth/identitystore.go). */
module Credentials {
  import opened Wrappers
  import opened Text
  import opened Base64

  const API_KEY_PREFIX := "spgr_sk_"
  const SESSION_PREFIX := "spgr_ws_"
  const PREFIX_LEN := 8
  const SECRET_LEN := 32

  const MINT_TIME: nat := 2
  const MINT_MEMORY: nat := 19456
  const MINT_THREADS: nat := 1
  const MINT_KEY_LEN: nat := 32
  const MINT_SALT_LEN := 16

  const UINT32: nat := 0x1_0000_0000
  const UINT8: nat := 0x100

  /** argon2.IDKey(password, salt, time, memory, threads, keyLen), uninterpreted;
      None where the library panics. */
  type Kdf = (string, seq<Byte>, nat, nat, nat, nat) -> Option<seq<Byte>>

  /** The KDF answers at the minting parameters, with keys of the length asked for. */
  ghost predicate Mints(kdf: Kdf) {
    forall secret, salt ::
      var h := kdf(secret, salt, MINT_TIME, MINT_MEMORY, MINT_THREADS, MINT_KEY_LEN);
      h.Some? && |h.value| == MINT_KEY_LEN
  }

  // ---------------------------------------------------------------- minting

  function HexDigit(i: nat): char
    requires i < 16
  {
    if i < 10 then '0' + i as char else 'a' + (i - 10) as char
  }

  function Hex(b: seq<Byte>): string {
    if b == [] then [] else [HexDigit(b[0] / 16), HexDigit(b[0] % 16)] + Hex(b[1..])
  }

  /** The PHC string: $argon2id$v=19$m=<m>,t=<t>,p=<p>$<salt>$<hash>, all parts
      with a dollar sign in front. */
  function FormatPhc(m: nat, t: nat, p: nat, salt: seq<Byte>, hash: seq<Byte>): string {
    Join(["", "argon2id", "v=19", FormatParameters(m, t, p), Encode(salt), Encode(hash)], '$')
  }

  function FormatParameters(m: nat, t: nat, p: nat): string {
    "m=" + Decimal(m) + ",t=" + Decimal(t) + ",p=" + Decimal(p)
  }

  /** Secret and PHC string from 16 random bytes and a random salt; None where the
      library would panic. */
  function GenerateApiKeySecret(kdf: Kdf, random: seq<Byte>, salt: seq<Byte>): Option<(string, string)> {
    var secret := Hex(random);
    match kdf(secret, salt, MINT_TIME, MINT_MEMORY, MINT_THREADS, MINT_KEY_LEN)
    case None => None
    case Some(hash) => Some((secret, FormatPhc(MINT_MEMORY, MINT_TIME, MINT_THREADS, salt, hash)))
  }

  function FormatToken(prefix: string, secret: string): string {
    API_KEY_PREFIX + prefix + "_" + secret
  }

  // ---------------------------------------------------------------- parsing and verification

  /** strings.IndexByte; -1 when absent. */
  function IndexByte(s: string, c: char): (i: int)
    ensures -1 <= i < |s|
    ensures i >= 0 ==> s[i] == c
    ensures forall k :: 0 <= k < (if i < 0 then |s| else i) ==> s[k] != c
  {
    if s == [] then -1
    else if s[0] == c then 0
    else
      var i := IndexByte(s[1..], c);
      if i < 0 then -1 else i + 1
  }

  function ParseApiKey(token: string): Option<(string, string)> {
    if !StartsWith(token, API_KEY_PREFIX) then None
    else
      var rest := token[|API_KEY_PREFIX|..];
      var sep := IndexByte(rest, '_');
      if sep != PREFIX_LEN then None
      else if |rest[sep + 1..]| != SECRET_LEN then None
      else Some((rest[..sep], rest[sep + 1..]))
  }

  datatype Verdict = Accepted | Rejected | Panics

  /** The cost parameters of a PHC string, in the order the format has them. */
  function ScanParameters(s: string): Option<(nat, nat, nat)> {
    match ScanLiteral(s, "m=")
    case None => None
    case Some(s) =>
      match ScanUint(s, UINT32)
      case None => None
      case Some((m, s)) =>
        match ScanLiteral(s, ",t=")
        case None => None
        case Some(s) =>
          match ScanUint(s, UINT32)
          case None => None
          case Some((t, s)) =>
            match ScanLiteral(s, ",p=")
            case None => None
            case Some(s) =>
              match ScanUint(s, UINT8)
              case None => None
              case Some((p, _)) => Some((m, t, p))
  }

  function VerifySecret(kdf: Kdf, phc: string, secret: string): Verdict {
    var parts := Split(phc, '$');
    if |parts| != 6 || parts[1] != "argon2id" then Rejected
    else
      CheckParts(kdf, ScanParameters(parts[3]), Decode(parts[4]), Decode(parts[5]), secret)
  }

  /** The check itself, on the decoded parts. */
  function CheckParts(kdf: Kdf, parameters: Option<(nat, nat, nat)>, salt: Option<seq<Byte>>, hash: Option<seq<Byte>>, secret: string)
    : Verdict
  {
    match (parameters, salt, hash)
    case (Some((m, t, p)), Some(salt), Some(hash)) =>
      (match kdf(secret, salt, t, m, p, |hash|)
       case None => Panics
       case Some(computed) => if hash == computed then Accepted else Rejected)
    case _ => Rejected
  }

  // ---------------------------------------------------------------- round trips

  lemma ScanAfterLiteral(literal: string, n: nat, limit: nat, rest: string)
    requires n < limit && (rest != [] ==> !IsDigit(rest[0]))
    ensures ScanLiteral(literal + Decimal(n) + rest, literal) == Some(Decimal(n) + rest)
    ensures ScanUint(Decimal(n) + rest, limit) == Some((n, rest))
  {
    var s := literal + Decimal(n) + rest;
    assert s[..|literal|] == literal && s[|literal|..] == Decimal(n) + rest;
    ScanDecimal(n, limit, rest);
  }

  /** The three decimal fields come back, up to the full range of their types. */
  lemma ParametersRoundTrip(m: nat, t: nat, p: nat)
    requires m < UINT32 && t < UINT32 && p < UINT8
    ensures ScanParameters(FormatParameters(m, t, p)) == Some((m, t, p))
  {
    var third := ",p=" + Decimal(p) + "";
    var second := ",t=" + Decimal(t) + third;
    assert third == ",p=" + Decimal(p);
    assert FormatParameters(m, t, p) == "m=" + Decimal(m) + second;
    ScanAfterLiteral("m=", m, UINT32, second);
    ScanAfterLiteral(",t=", t, UINT32, third);
    ScanAfterLiteral(",p=", p, UINT8, "");
  }

  lemma ParametersHaveNoDollar(m: nat, t: nat, p: nat)
    ensures !Contains(FormatParameters(m, t, p), '$')
  {
  }

  lemma EncodedHasNoDollar(b: seq<Byte>)
    ensures !Contains(Encode(b), '$')
  {
    EncodeAlphabet(b);
  }

  lemma JoinSix(a: string, b: string, c: string, d: string, e: string, f: string, sep: char)
    ensures Join([a, b, c, d, e, f], sep) ==
            a + [sep] + (b + [sep] + (c + [sep] + (d + [sep] + (e + [sep] + f))))
  {
    JoinCons(e, [f], sep);
    JoinCons(d, [e, f], sep);
    JoinCons(c, [d, e, f], sep);
    JoinCons(b, [c, d, e, f], sep);
    JoinCons(a, [b, c, d, e, f], sep);
    assert [a] + [b, c, d, e, f] == [a, b, c, d, e, f] && [b] + [c, d, e, f] == [b, c, d, e, f];
    assert [c] + [d, e, f] == [c, d, e, f] && [d] + [e, f] == [d, e, f] && [e] + [f] == [e, f];
  }

  lemma JoinCons(first: string, rest: seq<string>, sep: char)
    requires rest != []
    ensures Join([first] + rest, sep) == first + [sep] + Join(rest, sep)
  {
    assert ([first] + rest)[1..] == rest;
  }

  /** The text of a PHC string, cost parameters in the order memory, time, threads. */
  lemma PhcText(m: nat, t: nat, p: nat, salt: seq<Byte>, hash: seq<Byte>)
    ensures FormatPhc(m, t, p, salt, hash) ==
            "$argon2id$v=19$" + (FormatParameters(m, t, p) + ['$'] + (Encode(salt) + ['$'] + Encode(hash)))
    ensures FormatParameters(m, t, p) == "m=" + Decimal(m) + ",t=" + Decimal(t) + ",p=" + Decimal(p)
  {
    JoinSix("", "argon2id", "v=19", FormatParameters(m, t, p), Encode(salt), Encode(hash), '$');
    PhcPrefix(FormatParameters(m, t, p) + ['$'] + (Encode(salt) + ['$'] + Encode(hash)));
  }

  lemma PhcPrefix(rest: string)
    ensures "" + ['$'] + ("argon2id" + ['$'] + ("v=19" + ['$'] + rest)) == "$argon2id$v=19$" + rest
  {
    assert ['$'] + "argon2id" + ['$'] + "v=19" + ['$'] == "$argon2id$v=19$";
    assert "" + ['$'] + ("argon2id" + ['$'] + ("v=19" + ['$'] + rest)) ==
           (['$'] + "argon2id" + ['$'] + "v=19" + ['$']) + rest;
  }

  lemma SplitPhc(m: nat, t: nat, p: nat, salt: seq<Byte>, hash: seq<Byte>)
    ensures Split(FormatPhc(m, t, p, salt, hash), '$') ==
            ["", "argon2id", "v=19", FormatParameters(m, t, p), Encode(salt), Encode(hash)]
  {
    ParametersHaveNoDollar(m, t, p);
    EncodedHasNoDollar(salt);
    EncodedHasNoDollar(hash);
    SplitJoin(["", "argon2id", "v=19", FormatParameters(m, t, p), Encode(salt), Encode(hash)], '$');
  }

  /** Verification reads back exactly what was printed: for every parameter in
      range, salt and hash, the verdict is the comparison of the two keys. */
  lemma VerifyReadsPhc(kdf: Kdf, m: nat, t: nat, p: nat, salt: seq<Byte>, hash: seq<Byte>, secret: string)
    requires m < UINT32 && t < UINT32 && p < UINT8
    ensures VerifySecret(kdf, FormatPhc(m, t, p, salt, hash), secret) ==
            match kdf(secret, salt, t, m, p, |hash|)
            case None => Panics
            case Some(key) => if key == hash then Accepted else Rejected
  {
    SplitPhc(m, t, p, salt, hash);
    ParametersRoundTrip(m, t, p);
    RoundTrip(salt);
    RoundTrip(hash);
  }

  ghost predicate PartsAccept(kdf: Kdf, parameters: Option<(nat, nat, nat)>, salt: Option<seq<Byte>>, hash: Option<seq<Byte>>, secret: string) {
    && parameters.Some? && salt.Some? && hash.Some?
    && var (m, t, p) := parameters.value;
       kdf(secret, salt.value, t, m, p, |hash.value|) == Some(hash.value)
  }

  lemma PartsAcceptExactly(kdf: Kdf, parameters: Option<(nat, nat, nat)>, salt: Option<seq<Byte>>, hash: Option<seq<Byte>>, secret: string)
    ensures CheckParts(kdf, parameters, salt, hash, secret) == Accepted <==> PartsAccept(kdf, parameters, salt, hash, secret)
  {
  }

  /** What a stored string must hold for a secret to be accepted, printed or not: six
      parts, the right algorithm, and decodable parameters, salt and key, the last
      being what the KDF gives. */
  lemma AcceptedExactly(kdf: Kdf, phc: string, secret: string)
    ensures VerifySecret(kdf, phc, secret) == Accepted <==>
            var parts := Split(phc, '$');
            && |parts| == 6 && parts[1] == "argon2id"
            && PartsAccept(kdf, ScanParameters(parts[3]), Decode(parts[4]), Decode(parts[5]), secret)
  {
    var parts := Split(phc, '$');
    if |parts| == 6 {
      PartsAcceptExactly(kdf, ScanParameters(parts[3]), Decode(parts[4]), Decode(parts[5]), secret);
    }
  }

  lemma {:induction false} HexShape(b: seq<Byte>)
    ensures |Hex(b)| == 2 * |b|
    ensures forall k :: 0 <= k < |Hex(b)| ==> '0' <= Hex(b)[k] <= '9' || 'a' <= Hex(b)[k] <= 'f'
  {
    if b != [] {
      HexShape(b[1..]);
    }
  }

  const HEX_DIGITS := "0123456789abcdef"

  /** The high half of each byte comes first. */
  lemma {:induction false} HexDigits(b: seq<Byte>, k: nat)
    requires k < |b|
    ensures |Hex(b)| == 2 * |b|
    ensures Hex(b)[2 * k] == HEX_DIGITS[b[k] / 16] && Hex(b)[2 * k + 1] == HEX_DIGITS[b[k] % 16]
  {
    HexShape(b);
    if k > 0 {
      HexDigits(b[1..], k - 1);
    }
  }

  lemma {:induction false} HexInjective(a: seq<Byte>, b: seq<Byte>)
    requires Hex(a) == Hex(b)
    ensures a == b
  {
    HexShape(a);
    HexShape(b);
    if a != [] {
      assert Hex(a)[0] == Hex(b)[0] && Hex(a)[1] == Hex(b)[1];
      assert Hex(a)[2..] == Hex(a[1..]) && Hex(b)[2..] == Hex(b[1..]);
      HexInjective(a[1..], b[1..]);
      assert a == [a[0]] + a[1..] && b == [b[0]] + b[1..];
    }
  }

  /** A minted PHC string accepts its own secret, and another one exactly when the
      KDF maps both to the same key. */
  lemma MintedSecretVerifies(kdf: Kdf, random: seq<Byte>, salt: seq<Byte>, other: string)
    requires Mints(kdf)
    ensures GenerateApiKeySecret(kdf, random, salt).Some?
    ensures var (secret, phc) := GenerateApiKeySecret(kdf, random, salt).value;
            && VerifySecret(kdf, phc, secret) == Accepted
            && (VerifySecret(kdf, phc, other) == Accepted <==>
                  kdf(other, salt, MINT_TIME, MINT_MEMORY, MINT_THREADS, MINT_KEY_LEN) ==
                  kdf(secret, salt, MINT_TIME, MINT_MEMORY, MINT_THREADS, MINT_KEY_LEN))
  {
    var (secret, phc) := GenerateApiKeySecret(kdf, random, salt).value;
    var hash := kdf(secret, salt, MINT_TIME, MINT_MEMORY, MINT_THREADS, MINT_KEY_LEN).value;
    VerifyReadsPhc(kdf, MINT_MEMORY, MINT_TIME, MINT_THREADS, salt, hash, secret);
    VerifyReadsPhc(kdf, MINT_MEMORY, MINT_TIME, MINT_THREADS, salt, hash, other);
  }

  /** How minting ends; the source of randomness can fail. */
  datatype Minting = RandomFailed | KdfPanics | Minted(secret: string, phc: string)

  /** rand.Read: fills the buffer, or fails. */
  method ReadRandom(buffer: array<Byte>, bytes: Option<seq<Byte>>) returns (ok: bool)
    requires bytes.Some? ==> |bytes.value| == buffer.Length
    modifies buffer
    ensures ok <==> bytes.Some?
    ensures ok ==> buffer[..] == bytes.value
  {
    if bytes.None? {
      return false;
    }
    for i := 0 to buffer.Length
      invariant buffer[..i] == bytes.value[..i]
    {
      buffer[i] := bytes.value[i];
    }
    assert buffer[..] == buffer[..buffer.Length] && bytes.value == bytes.value[..buffer.Length];
    return true;
  }

  /** Minting from what the source of randomness gives: the secret is as long as the
      parser asks for, without an underscore, and the stored string accepts it. */
  method MintApiKeySecret(kdf: Kdf, random: Option<seq<Byte>>, salt: Option<seq<Byte>>) returns (r: Minting)
    requires random.Some? ==> |random.value| == SECRET_LEN / 2
    requires salt.Some? ==> |salt.value| == MINT_SALT_LEN
    ensures r.RandomFailed? <==> random.None? || salt.None?
    ensures !r.RandomFailed? ==>
              (match GenerateApiKeySecret(kdf, random.value, salt.value)
               case None => r == KdfPanics
               case Some((secret, phc)) => r == Minted(secret, phc))
    ensures r.Minted? ==> |r.secret| == SECRET_LEN && !Contains(r.secret, '_') && r.secret == Hex(random.value)
    ensures r.Minted? ==>
              exists hash :: kdf(r.secret, salt.value, 2, 19456, 1, 32) == Some(hash) && r.phc == FormatPhc(19456, 2, 1, salt.value, hash)
    ensures Mints(kdf) ==> !r.KdfPanics? && (r.Minted? ==> VerifySecret(kdf, r.phc, r.secret) == Accepted)
  {
    var rawSecret := new Byte[SECRET_LEN / 2];
    var ok := ReadRandom(rawSecret, random);
    if !ok {
      return RandomFailed;
    }
    var secret := Hex(rawSecret[..]);
    var saltBuffer := new Byte[MINT_SALT_LEN];
    ok := ReadRandom(saltBuffer, salt);
    if !ok {
      return RandomFailed;
    }
    HexShape(random.value);
    if Mints(kdf) {
      MintedSecretVerifies(kdf, random.value, salt.value, secret);
    }
    match kdf(secret, saltBuffer[..], MINT_TIME, MINT_MEMORY, MINT_THREADS, MINT_KEY_LEN) {
      case None => return KdfPanics;
      case Some(hash) =>
        return Minted(secret, FormatPhc(MINT_MEMORY, MINT_TIME, MINT_THREADS, saltBuffer[..], hash));
    }
  }

  ghost predicate WellFormedParts(prefix: string, secret: string) {
    |prefix| == 8 && !Contains(prefix, '_') && |secret| == 32
  }

  /** Parsing undoes formatting exactly on 8-byte prefixes without an underscore
      and 32-byte secrets. */
  lemma ParseFormatted(prefix: string, secret: string)
    ensures ParseApiKey(FormatToken(prefix, secret)) == Some((prefix, secret)) <==> WellFormedParts(prefix, secret)
  {
    var token := FormatToken(prefix, secret);
    var rest := prefix + "_" + secret;
    assert token[..|API_KEY_PREFIX|] == API_KEY_PREFIX && token[|API_KEY_PREFIX|..] == rest;
    var sep := IndexByte(rest, '_');
    assert rest[|prefix|] == '_' && sep <= |prefix|;
    assert forall k :: 0 <= k < |prefix| ==> rest[k] == prefix[k];
    if |prefix| == PREFIX_LEN && !Contains(prefix, '_') {
      assert sep == |prefix|;
      assert rest[..sep] == prefix && rest[sep + 1..] == secret;
    }
    if sep == PREFIX_LEN == |prefix| {
      assert forall k :: 0 <= k < |prefix| ==> prefix[k] != '_';
    }
  }

  /** Formatting undoes parsing: every accepted token is rebuilt from its parts. */
  lemma FormatParsed(token: string)
    requires ParseApiKey(token).Some?
    ensures var (prefix, secret) := ParseApiKey(token).value;
            && FormatToken(prefix, secret) == token && WellFormedParts(prefix, secret)
            && token == "spgr_sk_" + prefix + "_" + secret
  {
    var rest := token[|API_KEY_PREFIX|..];
    var sep := IndexByte(rest, '_');
    assert token == API_KEY_PREFIX + rest;
    assert rest == rest[..sep] + "_" + rest[sep + 1..];
    assert forall k :: 0 <= k < sep ==> rest[..sep][k] == rest[k];
  }

  // ---------------------------------------------------------------- dispatch

  datatype Route = RejectEmpty | ToJwt | ToSession | ToApiKey | ToIntrospection

  function CountDots(s: string): nat {
    if s == [] then 0 else (if s[0] == '.' then 1 else 0) + CountDots(s[1..])
  }

  predicate IsJwtShaped(token: string) {
    CountDots(token) == 2 && !StartsWith(token, API_KEY_PREFIX) && !StartsWith(token, SESSION_PREFIX)
  }

  /** The order of the guards in Resolve. */
  function Dispatch(token: string, introspectorsConfigured: bool): Route {
    if token == "" then RejectEmpty
    else if IsJwtShaped(token) then ToJwt
    else if StartsWith(token, SESSION_PREFIX) then ToSession
    else if StartsWith(token, API_KEY_PREFIX) then ToApiKey
    else if introspectorsConfigured then ToIntrospection
    else ToApiKey
  }

  predicate Static(token: string) {
    StartsWith(token, "spgr_sk_") || StartsWith(token, "spgr_ws_")
  }

  /** Where a token goes, by its dots, its prefix and the configuration. */
  lemma DispatchExact(token: string, introspectorsConfigured: bool)
    ensures var route := Dispatch(token, introspectorsConfigured);
            && (route == RejectEmpty <==> token == "")
            && (route == ToJwt <==> multiset(token)['.'] == 2 && !Static(token))
            && (route == ToSession <==> StartsWith(token, "spgr_ws_"))
            && (route == ToIntrospection <==>
                  token != "" && multiset(token)['.'] != 2 && !Static(token) && introspectorsConfigured)
            && (route == ToApiKey <==>
                  || StartsWith(token, "spgr_sk_")
                  || (token != "" && multiset(token)['.'] != 2 && !Static(token) && !introspectorsConfigured))
  {
    DotsCounted(token);
  }

  lemma {:induction false} DotsCounted(s: string)
    ensures CountDots(s) == multiset(s)['.']
  {
    if s != [] {
      assert s == [s[0]] + s[1..];
      DotsCounted(s[1..]);
    }
  }

  /** Static credentials never reach an identity provider, however many dots they
      hold; and whatever reaches the API-key resolver without its prefix is
      rejected there. */
  lemma StaticCredentialsStayLocal(token: string, introspectorsConfigured: bool)
    ensures var route := Dispatch(token, introspectorsConfigured);
            && (StartsWith(token, API_KEY_PREFIX) ==> route == ToApiKey)
            && (StartsWith(token, SESSION_PREFIX) ==> route == ToSession)
            && (route == ToApiKey && !StartsWith(token, API_KEY_PREFIX) ==> ParseApiKey(token).None?)
            && (route == ToIntrospection ==> introspectorsConfigured && ParseApiKey(token).None?)
  {
  }
}
