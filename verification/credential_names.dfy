/** Identities, the flat key names derived from them, and the associated data an envelope is sealed with. */
module CredentialNames {
  import opened Text

  datatype Account = Account(environment: string, broker: string, id: string)

  predicate BrokerChar(c: char) {
    'a' <= c <= 'z' || IsDigit(c) || c == '_' || c == '-'
  }

  predicate KeyIdChar(c: char) {
    'a' <= c <= 'z' || 'A' <= c <= 'Z' || IsDigit(c) || c in "._-"
  }

  predicate ValidKeyId(s: string) {
    1 <= |s| <= 64 && forall c | c in s :: KeyIdChar(c)
  }

  predicate ValidAccount(a: Account) {
    && (a.environment == "test" || a.environment == "prod")
    && 1 <= |a.broker| <= 32 && (forall c | c in a.broker :: BrokerChar(c))
    && 6 <= |a.id| <= 20 && (forall c | c in a.id :: IsDigit(c))
  }

  predicate ValidIdentity(a: Account, version: int, keyId: string) {
    ValidAccount(a) && version >= 1 && ValidKeyId(keyId)
  }

  datatype Role = Current | Version(version: nat) | Lock

  /** One entry of the shared store: a role of an account. */
  datatype Key = Key(account: Account, role: Role)

  predicate ValidKey(k: Key) {
    ValidAccount(k.account) && (k.role.Version? ==> k.role.version >= 1)
  }

  function RoleSuffix(r: Role): string {
    match r
    case Current => "current"
    case Version(v) => "v" + FormatNat(v)
    case Lock => "lock"
  }

  /** The string under which an entry is stored. */
  function KeyName(k: Key): string {
    "relay" + [':'] + (k.account.environment + [':'] + ("v1" + [':'] + (k.account.broker + [':'] +
      (k.account.id + [':'] + ("secret:credentials:" + RoleSuffix(k.role))))))
  }

  lemma RoleSuffixInjective(p: Role, q: Role)
    requires RoleSuffix(p) == RoleSuffix(q)
    ensures p == q
  {
    assert RoleSuffix(p)[0] == RoleSuffix(q)[0];
    if p.Version? && q.Version? {
      assert RoleSuffix(p)[1..] == FormatNat(p.version) && RoleSuffix(q)[1..] == FormatNat(q.version);
      FormatNatInjective(p.version, q.version);
    }
  }

  /** Key names of different accounts, versions or roles never collide. */
  lemma KeyNameInjective(k: Key, l: Key)
    requires ValidKey(k) && ValidKey(l)
    requires KeyName(k) == KeyName(l)
    ensures k == l
  {
    var ra, rb := "secret:credentials:" + RoleSuffix(k.role), "secret:credentials:" + RoleSuffix(l.role);
    var a, b := k.account, l.account;
    CutAt("relay", a.environment + [':'] + ("v1" + [':'] + (a.broker + [':'] + (a.id + [':'] + ra))),
          "relay", b.environment + [':'] + ("v1" + [':'] + (b.broker + [':'] + (b.id + [':'] + rb))), ':');
    CutAt(a.environment, "v1" + [':'] + (a.broker + [':'] + (a.id + [':'] + ra)),
          b.environment, "v1" + [':'] + (b.broker + [':'] + (b.id + [':'] + rb)), ':');
    CutAt("v1", a.broker + [':'] + (a.id + [':'] + ra), "v1", b.broker + [':'] + (b.id + [':'] + rb), ':');
    CutAt(a.broker, a.id + [':'] + ra, b.broker, b.id + [':'] + rb, ':');
    CutAt(a.id, ra, b.id, rb, ':');
    assert RoleSuffix(k.role) == ra[|"secret:credentials:"|..];
    assert RoleSuffix(l.role) == rb[|"secret:credentials:"|..];
    RoleSuffixInjective(k.role, l.role);
  }

  const PROTOCOL := "oc.secret.v1"

  function AdditionalAuthenticatedData(a: Account, version: nat, keyId: string): string {
    PROTOCOL + ['|'] + (a.environment + ['|'] + (a.broker + ['|'] + (a.id + ['|'] + (FormatNat(version) + ['|'] + keyId))))
  }

  /** The associated data determines the whole identity, so an envelope cannot be replayed under another one. */
  lemma AssociatedDataInjective(a: Account, v: nat, i: string, b: Account, w: nat, j: string)
    requires ValidIdentity(a, v, i) && ValidIdentity(b, w, j)
    requires AdditionalAuthenticatedData(a, v, i) == AdditionalAuthenticatedData(b, w, j)
    ensures a == b && v == w && i == j
  {
    var va, vb := FormatNat(v) + ['|'] + i, FormatNat(w) + ['|'] + j;
    CutAt(PROTOCOL, a.environment + ['|'] + (a.broker + ['|'] + (a.id + ['|'] + va)),
          PROTOCOL, b.environment + ['|'] + (b.broker + ['|'] + (b.id + ['|'] + vb)), '|');
    CutAt(a.environment, a.broker + ['|'] + (a.id + ['|'] + va), b.environment, b.broker + ['|'] + (b.id + ['|'] + vb), '|');
    CutAt(a.broker, a.id + ['|'] + va, b.broker, b.id + ['|'] + vb, '|');
    CutAt(a.id, va, b.id, vb, '|');
    CutAt(FormatNat(v), i, FormatNat(w), j, '|');
    FormatNatInjective(v, w);
  }
}
