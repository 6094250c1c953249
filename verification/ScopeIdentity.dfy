/** The identity of a payload scope and the names systemd derives from it. */
module ScopeIdentity {
  datatype Identity = Identity(unitName: string, invocationId: string, expectedUid: nat, logindSessionId: string)

  predicate StartsWith(s: string, prefix: string) {
    |prefix| <= |s| && s[..|prefix|] == prefix
  }

  predicate EndsWith(s: string, suffix: string) {
    |suffix| <= |s| && s[|s| - |suffix|..] == suffix
  }

  predicate IsHexDigit(c: char) {
    '0' <= c <= '9' || 'a' <= c <= 'f' || 'A' <= c <= 'F'
  }

  predicate IsUnitNameChar(c: char) {
    '0' <= c <= '9' || 'a' <= c <= 'z' || 'A' <= c <= 'Z' || c == '-' || c == '.' || c == '_'
  }

  predicate IsPayloadUnit(unitName: string) {
    StartsWith(unitName, "niralis-payload-") && EndsWith(unitName, ".scope")
  }

  /** The identity check both sides make; unit names are ASCII here, so characters are bytes. */
  predicate Valid(identity: Identity) {
    && IsPayloadUnit(identity.unitName) && |identity.unitName| <= 255
    && (forall i | 0 <= i < |identity.unitName| :: IsUnitNameChar(identity.unitName[i]))
    && |identity.invocationId| == 32
    && (forall i | 0 <= i < 32 :: IsHexDigit(identity.invocationId[i]))
    && identity.expectedUid != 0
  }

  function Decimal(n: nat): string {
    if n < 10 then [('0' as int + n) as char] else Decimal(n / 10) + [('0' as int + n % 10) as char]
  }

  function SliceOf(uid: nat): string {
    "user-" + Decimal(uid) + ".slice"
  }

  function ControlGroupOf(uid: nat, unitName: string): string {
    "/user.slice/" + SliceOf(uid) + "/" + unitName
  }

  predicate ValidPayloadCgroup(cgroup: string, uid: nat, unitName: string) {
    cgroup == ControlGroupOf(uid, unitName) && IsPayloadUnit(unitName)
  }

  /** Whether `path` lies strictly below `candidate`. */
  predicate IsAncestor(candidate: string, path: string) {
    |candidate| < |path| && path[..|candidate|] == candidate && path[|candidate|] == '/'
  }

  /** A scope as the worker might name it. */
  function Example(): Identity {
    Identity("niralis-payload-" + ".scope", seq(32, _ => '0'), 7, "c1")
  }

  lemma ExampleIsValid()
    ensures Valid(Example())
  {
    var name := Example().unitName;
    assert name[..16] == "niralis-payload-" && name[16..] == ".scope";
    forall i | 0 <= i < |name| ensures IsUnitNameChar(name[i]) {
      assert name[i] == if i < 16 then "niralis-payload-"[i] else ".scope"[i - 16];
    }
  }

  /** A path lies below another exactly when it is that path, a slash and something more or nothing. */
  lemma AncestorExactly(candidate: string, path: string)
    ensures IsAncestor(candidate, path) <==> exists rest: string :: path == candidate + "/" + rest
  {
    if IsAncestor(candidate, path) {
      var n := |candidate|;
      assert path == candidate + "/" + path[n + 1..];
    }
  }
}
