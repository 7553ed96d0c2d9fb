/** The versioned secret store the rotator talks to, reduced to the two calls
    it makes: read the latest version, add a new version. */
module SecretStore {
  import opened Primitives
  import opened Locators

  /** One stored version: the payload and the CRC-32C checksum sent with it. */
  datatype Version = Version(payload: Bytes, crc32c: int64)

  /** A snapshot of one secret: its resource name, its versions (oldest first,
      so the last is the one `latest` names), and whether reads or writes fail
      for reasons outside the rotator (network, permissions, client setup). */
  datatype Vault = Vault(secret: string, versions: seq<Version>, readFails: bool, writeFails: bool)

  /** What reading `locator` returns: the payload of the newest version when
      the locator is the secret's latest-version alias, the secret has a
      version and the read is not refused; nothing otherwise. */
  function Latest(v: Vault, locator: string): (r: Option<Bytes>)
  {
    if !v.readFails && locator == v.secret + LatestSuffix && |v.versions| > 0
    then Some(v.versions[|v.versions| - 1].payload)
    else None
  }

  /** The largest payload a secret version may hold: 64 KiB. */
  const MaxPayloadSize: nat := 65536

  /** What adding a version under `parent` does: when the parent names the
      secret, the payload fits within the size limit and the write is not
      refused, the secret gains the version as its newest one; otherwise
      nothing changes. */
  function Added(v: Vault, parent: string, payload: Bytes, checksum: int64): (r: Option<Vault>)
  {
    if !v.writeFails && parent == v.secret && |payload| <= MaxPayloadSize
    then Some(v.(versions := v.versions + [Version(payload, checksum)]))
    else None
  }

  /** Reading never changes the secret, and a successful add leaves all the
      existing versions in place and puts exactly one new version last. */
  lemma AddedAppendsOne(v: Vault, parent: string, payload: Bytes, checksum: int64)
    requires Added(v, parent, payload, checksum).Some?
    ensures var w := Added(v, parent, payload, checksum).value;
      w.secret == v.secret && |w.versions| == |v.versions| + 1 &&
      w.versions[..|v.versions|] == v.versions &&
      Latest(w, v.secret + LatestSuffix) == (if w.readFails then None else Some(payload))
  {
  }

  /** The store as an object: its version list grows in place. */
  class Store {
    const secret: string
    var versions: seq<Version>
    const readFails: bool
    const writeFails: bool

    function View(): Vault
      reads this
    {
      Vault(secret, versions, readFails, writeFails)
    }

    constructor (secret: string, versions: seq<Version>, readFails: bool, writeFails: bool)
      ensures View() == Vault(secret, versions, readFails, writeFails)
    {
      this.secret := secret;
      this.versions := versions;
      this.readFails := readFails;
      this.writeFails := writeFails;
    }

    /** Reads the newest version's payload through the latest-version alias. */
    method AccessLatest(locator: string) returns (r: Option<Bytes>)
      ensures r == Latest(View(), locator)
    {
      if !readFails && locator == secret + LatestSuffix && |versions| > 0 {
        r := Some(versions[|versions| - 1].payload);
      } else {
        r := None;
      }
    }

    /** Adds a new version holding `payload` with its checksum attached. */
    method AddVersion(parent: string, payload: Bytes, checksum: int64) returns (ok: bool)
      modifies this`versions
      ensures ok == Added(old(View()), parent, payload, checksum).Some?
      ensures ok ==> View() == Added(old(View()), parent, payload, checksum).value
      ensures !ok ==> View() == old(View())
    {
      ok := !writeFails && parent == secret && |payload| <= MaxPayloadSize;
      if ok {
        versions := versions + [Version(payload, checksum)];
      }
    }
  }
}
