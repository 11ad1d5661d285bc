/**
 * Salted password hashing (Riki/wiki/web/user.py, make_salted_hash and
 * check_hashed_password). The artifact is the hex form of the salt followed by
 * the SHA-512 hex digest of  salt[:32] ++ password ++ salt[32:].
 *
 * SHA-512 itself is not modelled: it is any function that yields 128
 * lower-case hex digits, passed in as `sha512`. The 64 random bytes that
 * os.urandom would supply when no salt is given are the parameter `random`.
 */
module SaltedHash {
  import opened Wrappers
  import opened Hex

  const SaltBytes := 64
  const DigestChars := 128

  predicate IsHexDigest(d: string) {
    |d| == DigestChars && forall i :: 0 <= i < |d| ==> IsLowerHexDigit(d[i])
  }

  function ZeroDigest(front: seq<byte>, password: string, back: seq<byte>): (d: string)
    ensures IsHexDigest(d)
  {
    seq(DigestChars, i => '0')
  }

  /** A SHA-512 hexdigest of (front, password, back), fed to the hash in that order. */
  type Sha512 = f: (seq<byte>, string, seq<byte>) -> string
    | forall front, password, back :: IsHexDigest(f(front, password, back))
    witness ZeroDigest

  /** Python's salt[:32] and salt[32:], which also accept salts shorter than 32 bytes. */
  function Front(salt: seq<byte>): seq<byte> {
    if |salt| <= 32 then salt else salt[..32]
  }

  function Back(salt: seq<byte>): seq<byte> {
    if |salt| <= 32 then [] else salt[32..]
  }

  /** `if not salt: salt = os.urandom(64)`: an empty (or absent) salt is replaced by fresh bytes. */
  function EffectiveSalt(salt: seq<byte>, random: seq<byte>): (s: seq<byte>)
    ensures |salt| == 0 ==> s == random
    ensures |salt| != 0 ==> s == salt
  {
    if |salt| == 0 then random else salt
  }

  function MakeSaltedHash(password: string, salt: seq<byte>, random: seq<byte>, sha512: Sha512): (h: string)
    ensures |h| == 2 * |EffectiveSalt(salt, random)| + DigestChars
  {
    var s := EffectiveSalt(salt, random);
    HexEncode(s) + sha512(Front(s), password, Back(s))
  }

  /** Python raises binascii.Error when the first 128 characters are not an even run of hex digits. */
  datatype HashError = MalformedSalt

  /** salted_hash[:128]: the part of an artifact that holds the hex salt. */
  function SaltPrefix(saltedHash: string): (p: string)
    ensures |saltedHash| <= DigestChars ==> p == saltedHash
    ensures |saltedHash| > DigestChars ==> p == saltedHash[..DigestChars]
  {
    if |saltedHash| <= DigestChars then saltedHash else saltedHash[..DigestChars]
  }

  /**
   * check_hashed_password: fails exactly when the salt prefix is not hex text;
   * otherwise accepts exactly when rehashing under the decoded salt gives back
   * the whole artifact.
   */
  function CheckHashedPassword(password: string, saltedHash: string, random: seq<byte>, sha512: Sha512)
    : (r: Result<bool, HashError>)
    ensures r.Failure? <==> !IsHexText(SaltPrefix(saltedHash))
    ensures r.Success? ==>
      r.value == (MakeSaltedHash(password, HexDecode(SaltPrefix(saltedHash)).value, random, sha512) == saltedHash)
  {
    match HexDecode(SaltPrefix(saltedHash))
    case None => Failure(MalformedSalt)
    case Some(salt) => Success(MakeSaltedHash(password, salt, random, sha512) == saltedHash)
  }

  /** A 64-byte salt fills exactly the first 128 characters of the artifact and can be read back from them. */
  lemma SaltIsRecoverable(password: string, salt: seq<byte>, random: seq<byte>, sha512: Sha512)
    requires |EffectiveSalt(salt, random)| == SaltBytes
    ensures var h := MakeSaltedHash(password, salt, random, sha512);
      |h| == 2 * DigestChars && h[..DigestChars] == HexEncode(EffectiveSalt(salt, random))
      && HexDecode(h[..DigestChars]) == Some(EffectiveSalt(salt, random))
  {
    var s := EffectiveSalt(salt, random);
    var h := MakeSaltedHash(password, salt, random, sha512);
    assert h[..DigestChars] == HexEncode(s);
    HexRoundTrip(s);
  }

  /**
   * Checking any password against an artifact made with a 64-byte salt
   * recomputes the digest under that same salt: it succeeds exactly when the
   * two digests agree, whatever fresh bytes the check itself is given.
   */
  lemma CheckRecomputesDigest(
    password: string, candidate: string, salt: seq<byte>, random: seq<byte>, random': seq<byte>, sha512: Sha512)
    requires |EffectiveSalt(salt, random)| == SaltBytes
    ensures var s := EffectiveSalt(salt, random);
      CheckHashedPassword(candidate, MakeSaltedHash(password, salt, random, sha512), random', sha512)
      == Success(sha512(Front(s), candidate, Back(s)) == sha512(Front(s), password, Back(s)))
  {
    var s := EffectiveSalt(salt, random);
    SaltIsRecoverable(password, salt, random, sha512);
    assert MakeSaltedHash(candidate, s, random', sha512) == HexEncode(s) + sha512(Front(s), candidate, Back(s));
  }

  /** The round trip: the password an artifact was made from always checks. */
  lemma HashRoundTrip(password: string, salt: seq<byte>, random: seq<byte>, random': seq<byte>, sha512: Sha512)
    requires |EffectiveSalt(salt, random)| == SaltBytes
    ensures CheckHashedPassword(password, MakeSaltedHash(password, salt, random, sha512), random', sha512) == Success(true)
  {
    CheckRecomputesDigest(password, password, salt, random, random', sha512);
  }

  /** Two artifacts for one password made with different 64-byte salts differ. */
  lemma DistinctSaltsDistinctArtifacts(password: string, s1: seq<byte>, s2: seq<byte>, random: seq<byte>, sha512: Sha512)
    requires |s1| == SaltBytes && |s2| == SaltBytes && s1 != s2
    ensures MakeSaltedHash(password, s1, random, sha512) != MakeSaltedHash(password, s2, random, sha512)
  {
    SaltIsRecoverable(password, s1, random, sha512);
    SaltIsRecoverable(password, s2, random, sha512);
  }

  /**
   * The fresh bytes handed to check_hashed_password never matter: an empty
   * artifact decodes to the empty salt and can match no recomputed hash, and a
   * non-empty one decodes to a non-empty salt that is used as it is.
   */
  lemma CheckIgnoresRandom(password: string, saltedHash: string, r1: seq<byte>, r2: seq<byte>, sha512: Sha512)
    ensures CheckHashedPassword(password, saltedHash, r1, sha512) == CheckHashedPassword(password, saltedHash, r2, sha512)
    ensures saltedHash == "" ==> CheckHashedPassword(password, saltedHash, r1, sha512) == Success(false)
  {
  }
}
