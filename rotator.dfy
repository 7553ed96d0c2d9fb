/** One credential rotation: mint a token, read the stored history, put the
    token in front of it and store the result as a new checksummed version. */
module Rotator {
  import opened Primitives
  import opened Tokens
  import opened History
  import opened Locators
  import opened SecretStore

  /** The JSON library as the rotator uses it: indented encoding of a token
      list, and decoding of a stored blob, which fails on malformed input. */
  datatype Codec = Codec(marshalIndent: seq<Token> -> Bytes, unmarshal: Bytes -> Option<seq<Token>>)

  /** How a rotation ends: the new version was stored, the history could not
      be read (the program stops there), or the store refused the new version. */
  datatype Outcome = Updated | FetchFailed(locator: string) | SubmitFailed(parent: string)

  /** The checksum attached to a payload: its CRC-32C, widened to the 64-bit
      field the request carries. */
  function Checksum(crc32c: Bytes -> uint32, payload: Bytes): int64
  {
    crc32c(payload) as int64
  }

  /** The history written back when `blob` was read: the new token followed by
      whatever the blob decoded to. */
  function WrittenHistory(minted: Token, codec: Codec, blob: Bytes): seq<Token>
  {
    Merge(minted, PriorHistory(codec.unmarshal(blob)))
  }

  /** What the history written back is made of: the new token followed by
      the decoded list when the blob decodes; the new token alone exactly
      when the blob does not decode or decodes to an empty list; and, for a
      blob a round-tripping codec encoded, the new token followed by the
      encoded history. */
  lemma WrittenHistoryCases(minted: Token, codec: Codec, blob: Bytes)
    ensures codec.unmarshal(blob).Some? ==> WrittenHistory(minted, codec, blob) == [minted] + codec.unmarshal(blob).value
    ensures WrittenHistory(minted, codec, blob) == [minted] <==> codec.unmarshal(blob) == None || codec.unmarshal(blob) == Some([])
    ensures RoundTrips(codec) ==> forall h :: WrittenHistory(minted, codec, codec.marshalIndent(h)) == [minted] + h
  {
  }

  /** The effect of one rotation on the secret, given the project id, the
      minted token and the library functions. */
  function Rotation(v: Vault, project: string, minted: Token, codec: Codec, crc32c: Bytes -> uint32): (r: (Outcome, Vault))
    ensures r.1.secret == v.secret && r.1.readFails == v.readFails && r.1.writeFails == v.writeFails
    ensures r.0.FetchFailed? <==> Latest(v, LatestLocator(project, SecretName)).None?
    ensures r.0.SubmitFailed? <==>
      (Latest(v, LatestLocator(project, SecretName)).Some? &&
       (v.writeFails || |codec.marshalIndent(WrittenHistory(minted, codec, Latest(v, LatestLocator(project, SecretName)).value))| > MaxPayloadSize))
    ensures !r.0.Updated? ==> r.1 == v
    ensures r.0.Updated? ==>
      |r.1.versions| == |v.versions| + 1 && r.1.versions[..|v.versions|] == v.versions &&
      var w := r.1.versions[|v.versions|];
      w.payload == codec.marshalIndent(WrittenHistory(minted, codec, Latest(v, LatestLocator(project, SecretName)).value)) &&
      w.crc32c as int == crc32c(w.payload) as int
  {
    var readLocator := LatestLocator(project, SecretName);
    LatestLocatorNamesSecret(project, SecretName, v.secret);
    match Latest(v, readLocator)
    case None => (FetchFailed(readLocator), v)
    case Some(blob) =>
      var payload := codec.marshalIndent(WrittenHistory(minted, codec, blob));
      var parent := SecretLocator(project, SecretName);
      match Added(v, parent, payload, Checksum(crc32c, payload))
      case None => (SubmitFailed(parent), v)
      case Some(w) =>
        AddedAppendsOne(v, parent, payload, Checksum(crc32c, payload));
        (Updated, w)
  }

  /** Adds the payload as a new version of `parent`, with its CRC-32C attached. */
  method AddSecretVersion(store: Store, parent: string, payload: Bytes, crc32c: Bytes -> uint32) returns (ok: bool)
    modifies store
    ensures ok == Added(old(store.View()), parent, payload, Checksum(crc32c, payload)).Some?
    ensures store.View() == if ok then Added(old(store.View()), parent, payload, Checksum(crc32c, payload)).value
                            else old(store.View())
  {
    var checksum := Checksum(crc32c, payload);
    ok := store.AddVersion(parent, payload, checksum);
  }

  /** One rotation against the store. The metadata lookup's answer, the new
      key id and the clock reading are inputs; `minted` is the token built. */
  method Jwt(store: Store, lookup: Option<string>, kid: string, now: int64, codec: Codec, crc32c: Bytes -> uint32)
    returns (outcome: Outcome, ghost minted: Token)
    modifies store
    ensures IsFreshToken(minted, kid, now)
    ensures (outcome, store.View()) == Rotation(old(store.View()), ProjectId(lookup), minted, codec, crc32c)
  {
    var project := ProjectId(lookup);
    var token := NewToken(kid, now);
    minted := token;
    var readLocator := LatestLocator(project, SecretName);
    var secret := store.AccessLatest(readLocator);
    if secret.None? {
      outcome := FetchFailed(readLocator);
      return;
    }
    var combined := WrittenHistory(token, codec, secret.value);
    var payload := codec.marshalIndent(combined);
    var parent := SecretLocator(project, SecretName);
    var ok := AddSecretVersion(store, parent, payload, crc32c);
    if !ok {
      outcome := SubmitFailed(parent);
      return;
    }
    outcome := Updated;
  }

  /** Decoding an encoded history gives that history back. */
  ghost predicate RoundTrips(codec: Codec) {
    forall h :: codec.unmarshal(codec.marshalIndent(h)) == Some(h)
  }

  /** The history a reader of the secret's latest version sees. */
  function StoredHistory(v: Vault, codec: Codec): seq<Token>
    requires |v.versions| > 0
  {
    PriorHistory(codec.unmarshal(v.versions[|v.versions| - 1].payload))
  }

  /** The store is reachable, accepts writes and holds the project's secret
      with at least one version. (Payload size is a separate condition.) */
  ghost predicate Healthy(v: Vault, project: string) {
    !v.readFails && !v.writeFails &&
    v.secret == SecretLocator(project, SecretName) && |v.versions| > 0
  }

  /** Against a healthy store with a faithful codec, a rotation whose new
      history encodes within the size limit succeeds, the store stays healthy,
      and the history read back is the new token in front of the history read
      before. */
  lemma RotationPrependsToStoredHistory(v: Vault, project: string, minted: Token, codec: Codec, crc32c: Bytes -> uint32)
    requires RoundTrips(codec) && Healthy(v, project)
    requires |codec.marshalIndent(Merge(minted, StoredHistory(v, codec)))| <= MaxPayloadSize
    ensures var r := Rotation(v, project, minted, codec, crc32c);
      r.0 == Updated && Healthy(r.1, project) &&
      StoredHistory(r.1, codec) == Merge(minted, StoredHistory(v, codec))
  {
  }

  /** The history is never trimmed: once the new history's encoding exceeds
      the store's size limit, the rotation is refused and nothing is written,
      even against a healthy store. */
  lemma OversizedHistoryIsRefused(v: Vault, project: string, minted: Token, codec: Codec, crc32c: Bytes -> uint32)
    requires Healthy(v, project)
    requires |codec.marshalIndent(Merge(minted, StoredHistory(v, codec)))| > MaxPayloadSize
    ensures Rotation(v, project, minted, codec, crc32c) == (SubmitFailed(SecretLocator(project, SecretName)), v)
  {
    assert Latest(v, LatestLocator(project, SecretName)) == Some(v.versions[|v.versions| - 1].payload);
  }

  /** After a successful rotation, the version the latest alias names carries
      the CRC-32C of exactly the bytes that alias returns. */
  lemma LatestVersionCarriesItsChecksum(v: Vault, project: string, minted: Token, codec: Codec, crc32c: Bytes -> uint32)
    requires Rotation(v, project, minted, codec, crc32c).0 == Updated
    ensures var w := Rotation(v, project, minted, codec, crc32c).1;
      |w.versions| > 0 &&
      Latest(w, LatestLocator(project, SecretName)) == Some(w.versions[|w.versions| - 1].payload) &&
      w.versions[|w.versions| - 1].crc32c == Checksum(crc32c, w.versions[|w.versions| - 1].payload)
  {
    LatestLocatorNamesSecret(project, SecretName, v.secret);
  }

  /** When the stored blob does not decode, the rotation writes a history
      holding only the new token: every earlier credential is dropped. */
  lemma UnparsableHistoryIsReplaced(v: Vault, project: string, minted: Token, codec: Codec, crc32c: Bytes -> uint32)
    requires Healthy(v, project)
    requires codec.unmarshal(v.versions[|v.versions| - 1].payload).None?
    requires |codec.marshalIndent([minted])| <= MaxPayloadSize
    ensures var r := Rotation(v, project, minted, codec, crc32c);
      r.0 == Updated && r.1.versions[|r.1.versions| - 1].payload == codec.marshalIndent([minted])
  {
    var blob := v.versions[|v.versions| - 1].payload;
    assert Latest(v, LatestLocator(project, SecretName)) == Some(blob);
    assert WrittenHistory(minted, codec, blob) == [minted];
  }

  /** A failed project lookup does not stop the rotation: it proceeds with the
      fallback id and succeeds when the store holds that project's secret.
      If the store belongs to any other project, the read misses and nothing
      is written. */
  lemma FailedLookupUsesFallback(v: Vault, minted: Token, codec: Codec, crc32c: Bytes -> uint32)
    ensures Rotation(v, ProjectId(None), minted, codec, crc32c) == Rotation(v, FallbackProjectId, minted, codec, crc32c)
    ensures Healthy(v, FallbackProjectId) && |codec.marshalIndent(Merge(minted, StoredHistory(v, codec)))| <= MaxPayloadSize ==>
      Rotation(v, ProjectId(None), minted, codec, crc32c).0 == Updated
    ensures forall p :: v.secret == SecretLocator(p, SecretName) && p != FallbackProjectId ==>
      Rotation(v, ProjectId(None), minted, codec, crc32c) == (FetchFailed(LatestLocator(FallbackProjectId, SecretName)), v)
  {
    forall p | v.secret == SecretLocator(p, SecretName) && p != FallbackProjectId
      ensures Latest(v, LatestLocator(FallbackProjectId, SecretName)).None?
    {
      if Latest(v, LatestLocator(FallbackProjectId, SecretName)).Some? {
        LatestLocatorNamesSecret(FallbackProjectId, SecretName, v.secret);
        SecretLocatorDeterminesProject(p, FallbackProjectId, SecretName);
      }
    }
  }

  /** The rotations with the given tokens run one after another, first token first. */
  function Rotations(v: Vault, project: string, ts: seq<Token>, codec: Codec, crc32c: Bytes -> uint32): (r: (seq<Outcome>, Vault))
    ensures |r.0| == |ts|
    decreases |ts|
  {
    if ts == [] then ([], v)
    else
      var first := Rotation(v, project, ts[0], codec, crc32c);
      var rest := Rotations(first.1, project, ts[1..], codec, crc32c);
      ([first.0] + rest.0, rest.1)
  }

  /** The histories a run of rotations writes, one per rotation, are the
      prefixes of the run merged onto the starting history: dropping the
      first token into the history leaves the rest of the run's prefixes. */
  lemma PrefixStep(ts: seq<Token>, k: nat, h: seq<Token>)
    requires k < |ts|
    ensures MergeAll(ts[..k + 1], h) == MergeAll(ts[1..][..k], Merge(ts[0], h))
  {
    assert ts[..k + 1][1..] == ts[1..][..k];
  }

  /** Successive rotations against a healthy store with a faithful codec, as
      long as each history the run writes encodes within the size limit, all
      succeed, add one version each, and lose no credential: the
      history read back is the new tokens, newest first, followed by the
      original history. */
  lemma {:induction false} RotationsKeepEveryCredential(v: Vault, project: string, ts: seq<Token>, codec: Codec, crc32c: Bytes -> uint32)
    requires RoundTrips(codec) && Healthy(v, project)
    requires forall k | 1 <= k <= |ts| :: |codec.marshalIndent(MergeAll(ts[..k], StoredHistory(v, codec)))| <= MaxPayloadSize
    ensures var r := Rotations(v, project, ts, codec, crc32c);
      (forall k | 0 <= k < |ts| :: r.0[k] == Updated) &&
      |r.1.versions| == |v.versions| + |ts| &&
      StoredHistory(r.1, codec) == MergeAll(ts, StoredHistory(v, codec)) &&
      StoredHistory(r.1, codec) == Reversed(ts) + StoredHistory(v, codec)
    decreases |ts|
  {
    MergeAllIsNewestFirst(ts, StoredHistory(v, codec));
    if ts != [] {
      var first := Rotation(v, project, ts[0], codec, crc32c);
      var prior := StoredHistory(v, codec);
      assert MergeAll(ts[..1], prior) == Merge(ts[0], prior) by {
        assert ts[..1][1..] == [];
      }
      RotationPrependsToStoredHistory(v, project, ts[0], codec, crc32c);
      forall k | 1 <= k <= |ts[1..]|
        ensures |codec.marshalIndent(MergeAll(ts[1..][..k], StoredHistory(first.1, codec)))| <= MaxPayloadSize
      {
        PrefixStep(ts, k, prior);
      }
      RotationsKeepEveryCredential(first.1, project, ts[1..], codec, crc32c);
    }
  }
}
