/**
 * Server ids: the encrypted form of a stored path that the field hands to the
 * browser, and the defensive decoding of what comes back. Laravel's encrypter
 * is an oracle: the configured cipher name and a `decrypt` that either yields
 * a path or throws (`None`).
 */
module ServerId {
  import opened Wrappers
  import opened PhpString
  import opened Collections

  /** The only cipher the heuristic knows about. */
  const AesCbc: string := "AES-256-CBC"

  /** A recognised token has more than this many characters in its body. */
  const TokenThreshold: nat := 66

  /** The characters `str_replace` strips from the body before measuring it. */
  const Ignored: string := "/_-"

  /** The argument of `isEncryptedString`: a PHP string or anything else. */
  datatype Value = Str(s: string) | NonString

  datatype Encrypter = Encrypter(cipher: string, decrypt: string -> Option<string>)

  /** The part before the first `.`, with `/`, `_` and `-` removed. */
  function TokenBody(s: string): string {
    Diff(Explode(s, '.')[0], Ignored)
  }

  /**
   * `Filepond::isEncryptedString`: `false` for a non-string; under
   * AES-256-CBC whether the body is longer than 66 characters; under any
   * other cipher the switch falls through and the function yields `null`
   * (`None`).
   */
  function IsEncryptedString(v: Value, cipher: string): (r: Option<bool>)
    ensures r.None? <==> v.Str? && cipher != AesCbc
    ensures r == Some(true) ==> v.Str? && cipher == AesCbc
  {
    match v
    case NonString => Some(false)
    case Str(s) => if cipher == AesCbc then Some(|TokenBody(s)| > TokenThreshold) else None
  }

  /** The heuristic's answer is truthy. */
  predicate Recognised(s: string, cipher: string) {
    IsEncryptedString(Str(s), cipher) == Some(true)
  }

  /**
   * `Filepond::getPathFromServerId`: decrypts a recognised token and passes
   * anything else through. A failing `decrypt` is not caught here (`None`).
   */
  function GetPathFromServerId(enc: Encrypter, serverId: string): (r: Option<string>)
    ensures r != Some(serverId) ==> Recognised(serverId, enc.cipher)
  {
    if Recognised(serverId, enc.cipher) then enc.decrypt(serverId) else Some(serverId)
  }

  /**
   * `->map(getPathFromServerId)` over a list of server ids: the paths in
   * order, or the exception of the first id that cannot be decrypted.
   */
  function DecodePaths(enc: Encrypter, ids: seq<string>): (r: Option<seq<string>>)
    ensures r.Some? ==> |r.value| == |ids|
    decreases |ids|
  {
    if ids == [] then Some([])
    else
      match GetPathFromServerId(enc, ids[0])
      case None => None
      case Some(p) =>
        match DecodePaths(enc, ids[1..])
        case None => None
        case Some(ps) => Some([p] + ps)
  }

  /** Decoding a list decodes each id in place, and fails exactly when one of them fails. */
  lemma {:induction false} DecodePathsPointwise(enc: Encrypter, ids: seq<string>)
    ensures var r := DecodePaths(enc, ids);
            (r.Some? ==> forall i | 0 <= i < |ids| :: GetPathFromServerId(enc, ids[i]) == Some(r.value[i])) &&
            (r.None? <==> exists i | 0 <= i < |ids| :: GetPathFromServerId(enc, ids[i]).None?)
    decreases |ids|
  {
    if ids != [] {
      DecodePathsPointwise(enc, ids[1..]);
      var r := DecodePaths(enc, ids);
      var rest := DecodePaths(enc, ids[1..]);
      if r.None? && GetPathFromServerId(enc, ids[0]).Some? {
        assert rest.None?;
        var j :| 0 <= j < |ids| - 1 && GetPathFromServerId(enc, ids[1..][j]).None?;
        assert GetPathFromServerId(enc, ids[j + 1]).None?;
      }
      if r.Some? {
        forall i | 0 <= i < |ids|
          ensures GetPathFromServerId(enc, ids[i]) == Some(r.value[i])
        {
          if i > 0 {
            assert ids[i] == ids[1..][i - 1];
          }
        }
      }
    }
  }

  /** A non-string is never a token, whatever the cipher. */
  lemma NonStringIsNoToken(cipher: string)
    ensures IsEncryptedString(NonString, cipher) == Some(false)
  {
  }

  /** Under a cipher other than AES-256-CBC the heuristic answers `null` for every string. */
  lemma OtherCipherAnswersNull(s: string, cipher: string)
    requires cipher != AesCbc
    ensures IsEncryptedString(Str(s), cipher) == None
    ensures GetPathFromServerId(Encrypter(cipher, _ => None), s) == Some(s)
  {
  }

  /** Only the part before the first `.` matters. */
  lemma {:induction false} HeadDecides(head: string, tail: string, cipher: string)
    requires '.' !in head
    ensures IsEncryptedString(Str(head + "." + tail), cipher) == IsEncryptedString(Str(head), cipher)
  {
    ExplodeAfterPiece(head, '.', tail);
    ExplodeWithoutDelimiter(head, '.');
  }

  /** Strings of at most 66 characters are never taken for tokens. */
  lemma {:induction false} ShortStringIsPlain(s: string, cipher: string)
    requires |s| <= TokenThreshold
    ensures !Recognised(s, cipher)
  {
    ExplodePieces(s, '.');
    var head := Explode(s, '.')[0];
    assert head in Explode(s, '.');
  }

  /**
   * The heuristic also catches plain names: under AES-256-CBC a string of more
   * than 66 characters without `.`, `/`, `_` or `-` is handed to `decrypt`.
   */
  lemma {:induction false} LongPlainNameIsDecrypted(enc: Encrypter, s: string)
    requires enc.cipher == AesCbc
    requires |s| > TokenThreshold
    requires forall c <- s :: c != '.' && c !in Ignored
    ensures Recognised(s, enc.cipher)
    ensures GetPathFromServerId(enc, s) == enc.decrypt(s)
  {
    ExplodeWithoutDelimiter(s, '.');
    DiffDisjoint(s, Ignored);
  }

  /** An id the heuristic does not recognise comes back unchanged; `decrypt` is not consulted. */
  lemma PlainIdPassesThrough(enc: Encrypter, s: string)
    requires !Recognised(s, enc.cipher)
    ensures GetPathFromServerId(enc, s) == Some(s)
    ensures forall d: string -> Option<string> :: GetPathFromServerId(Encrypter(enc.cipher, d), s) == Some(s)
  {
  }

  /**
   * The round trip holds only as far as the oracle grants it: if `decrypt`
   * inverts `encrypt` at `p` and the token looks like one, the path comes back.
   */
  lemma TokenRoundTrip(enc: Encrypter, encrypt: string -> string, p: string)
    requires enc.decrypt(encrypt(p)) == Some(p)
    requires Recognised(encrypt(p), enc.cipher)
    ensures GetPathFromServerId(enc, encrypt(p)) == Some(p)
  {
  }

  /** A list of ids none of which looks like a token decodes to itself. */
  lemma {:induction false} PlainIdsDecodeToThemselves(enc: Encrypter, ids: seq<string>)
    requires forall i | 0 <= i < |ids| :: !Recognised(ids[i], enc.cipher)
    ensures DecodePaths(enc, ids) == Some(ids)
    decreases |ids|
  {
    if ids != [] {
      PlainIdsDecodeToThemselves(enc, ids[1..]);
      assert [ids[0]] + ids[1..] == ids;
    }
  }
}
