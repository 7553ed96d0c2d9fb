/** Where the rotator reads and writes: the project id and the two Secret
    Manager resource names built from it. */
module Locators {
  import opened Primitives

  /** The secret that holds the credential history. */
  const SecretName: string := "TEST_JGW"

  /** The project number used when the metadata server cannot be reached. */
  const FallbackProjectId: string := "122203615305"

  /** The version alias that names a secret's newest version. */
  const LatestSuffix: string := "/versions/latest"

  /** The project id: the metadata server's answer when the request got one,
      the fixed fallback otherwise. A failed lookup never stops a rotation,
      since the result is always some id. */
  function ProjectId(lookup: Option<string>): string
  {
    match lookup
    case Some(body) => body
    case None => FallbackProjectId
  }

  /** The parent a new version is added under: `projects/P/secrets/N`. */
  function SecretLocator(project: string, name: string): string
  {
    "projects/" + project + "/secrets/" + name
  }

  /** The locator the history is read from: `projects/P/secrets/N/versions/latest`,
      which is the parent locator with the latest-version alias appended. */
  function LatestLocator(project: string, name: string): (r: string)
    ensures r == SecretLocator(project, name) + LatestSuffix
  {
    "projects/" + project + "/secrets/" + name + "/versions/latest"
  }

  lemma SuffixCancels(a: string, b: string, suffix: string)
    requires a + suffix == b + suffix
    ensures a == b
  {
    assert |a| == |b|;
    assert a == (a + suffix)[..|a|];
    assert b == (b + suffix)[..|b|];
  }

  /** A secret's latest version is read through the read locator exactly
      when the write locator names that same secret: a read that reached the
      secret implies the write goes to the same secret. */
  lemma LatestLocatorNamesSecret(project: string, name: string, secret: string)
    ensures LatestLocator(project, name) == secret + LatestSuffix <==> SecretLocator(project, name) == secret
  {
    if LatestLocator(project, name) == secret + LatestSuffix {
      SuffixCancels(SecretLocator(project, name), secret, LatestSuffix);
    }
  }

  /** A write locator names one project and one secret: for secret names
      without a slash, equal locators have equal project ids and equal names. */
  lemma SecretLocatorIsInjective(p1: string, n1: string, p2: string, n2: string)
    requires '/' !in n1 && '/' !in n2
    requires SecretLocator(p1, n1) == SecretLocator(p2, n2)
    ensures p1 == p2 && n1 == n2
  {
    LocatorTail(p1, n1);
    LocatorTail(p2, n2);
    if |n1| < |n2| {
      assert false;
    } else if |n2| < |n1| {
      assert false;
    }
    SecretLocatorDeterminesProject(p1, p2, n1);
  }

  /** A write locator ends with a slash followed by the secret name. */
  lemma LocatorTail(project: string, name: string)
    ensures var r := SecretLocator(project, name);
      |r| > |name| && r[|r| - 1 - |name|] == '/' && r[|r| - |name|..] == name
  {
  }

  /** For one secret name, distinct project ids give distinct locators, so the
      fallback id addresses a different secret than any other project's. */
  lemma SecretLocatorDeterminesProject(p1: string, p2: string, name: string)
    requires SecretLocator(p1, name) == SecretLocator(p2, name)
    ensures p1 == p2
  {
    var prefix := "projects/";
    var tail := "/secrets/" + name;
    assert SecretLocator(p1, name) == prefix + (p1 + tail);
    assert SecretLocator(p2, name) == prefix + (p2 + tail);
    assert p1 + tail == (prefix + (p1 + tail))[|prefix|..];
    assert p2 + tail == (prefix + (p2 + tail))[|prefix|..];
    SuffixCancels(p1, p2, tail);
  }
}
