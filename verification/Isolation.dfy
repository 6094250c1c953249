/**
 * The isolation audit of a session child and the policy its parent applies to it: capability lists
 * read from bit words, and open descriptors against an allowlist.
 */
module Isolation {
  import opened Text
  import opened OrderedSets

  const HARD_MAX_CAPABILITY_ID := 63
  const DANGEROUS_SECUREBITS_MASK: bv32 := 5

  datatype Capabilities = Capabilities(
    effective: seq<int>, permitted: seq<int>, inheritable: seq<int>, ambient: seq<int>, bounding: seq<int>,
    last: nat)

  datatype Proof = Proof(capabilities: Capabilities, securebits: bv32, noNewPrivs: bool, openFds: seq<int>)

  predicate BitSet(value: bv32, bit: nat)
    requires bit < 32
  {
    value & ((1 as bv32) << bit) != 0
  }

  /** Whether the words hold this capability. */
  predicate Holds(words: seq<bv32>, capability: nat) {
    capability / 32 < |words| && BitSet(words[capability / 32], capability % 32)
  }

  /** Exactly the capabilities up to `last` that the words hold, in increasing order. */
  method Bits(words: seq<bv32>, last: nat) returns (result: seq<int>)
    ensures ListsHeld(result, words, last)
  {
    result := [];
    for word := 0 to |words|
      invariant StrictlyIncreasing(result)
      invariant forall c: int :: c in result <==> 0 <= c <= last && c < word * 32 && Holds(words, c)
    {
      for bit := 0 to 32
        invariant StrictlyIncreasing(result)
        invariant forall c: int :: c in result <==> 0 <= c <= last && c < word * 32 + bit && Holds(words, c)
      {
        var cap := word * 32 + bit;
        assert cap / 32 == word && cap % 32 == bit;
        assert forall i | 0 <= i < |result| :: result[i] in result;
        if cap <= last && BitSet(words[word], bit) {
          result := result + [cap];
        }
      }
    }
  }

  /** Two queries per capability; a negative answer fails the audit. */
  method QueryEach(last: nat, ambient: nat -> int, bounding: nat -> int) returns (r: Result<(seq<int>, seq<int>), ()>)
    ensures r.Ok? <==> forall c: nat | c <= last :: 0 <= ambient(c) && 0 <= bounding(c)
    ensures r.Ok? ==> ListsAnswered(r.value.0, ambient, last) && ListsAnswered(r.value.1, bounding, last)
  {
    var a: seq<int>, b: seq<int> := [], [];
    for cap := 0 to last + 1
      invariant forall c: nat | c < cap :: 0 <= ambient(c) && 0 <= bounding(c)
      invariant ListsAnswered(a, ambient, cap - 1) && ListsAnswered(b, bounding, cap - 1)
    {
      if ambient(cap) < 0 {
        return Err(());
      }
      assert forall i | 0 <= i < |a| :: a[i] in a;
      if ambient(cap) == 1 {
        a := a + [cap];
      }
      if bounding(cap) < 0 {
        return Err(());
      }
      assert forall i | 0 <= i < |b| :: b[i] in b;
      if bounding(cap) == 1 {
        b := b + [cap];
      }
    }
    return Ok((a, b));
  }

  /** What the kernel answers; `otherCallsOk` covers the calls that only succeed or fail. */
  datatype Kernel = Kernel(
    otherCallsOk: bool, last: nat, effective: seq<bv32>, permitted: seq<bv32>, inheritable: seq<bv32>,
    ambient: nat -> int, bounding: nat -> int, securebits: bv32, noNewPrivs: bool, candidates: seq<int>,
    open: int -> bool)

  /** The descriptors among the candidates that are open, in increasing order. */
  method OpenFds(candidates: seq<int>, open: int -> bool) returns (fds: seq<int>)
    ensures StrictlyIncreasing(fds) && forall fd :: fd in fds <==> fd in candidates && open(fd)
  {
    var found: seq<int> := [];
    for i := 0 to |candidates|
      invariant forall fd :: fd in found <==> fd in candidates[..i] && open(fd)
    {
      assert candidates[..i + 1] == candidates[..i] + [candidates[i]];
      if open(candidates[i]) {
        found := found + [candidates[i]];
      }
    }
    assert candidates[..|candidates|] == candidates;
    SortedIncreases(found);
    return Dedup(Sort(found));
  }

  method Audit(k: Kernel) returns (r: Result<Proof, ()>)
    ensures r.Ok? <==>
      && k.otherCallsOk && k.last <= HARD_MAX_CAPABILITY_ID
      && forall c: nat | c <= k.last :: 0 <= k.ambient(c) && 0 <= k.bounding(c)
    ensures r.Ok? ==> Reflects(k, r.value)
  {
    if k.last > HARD_MAX_CAPABILITY_ID {
      return Err(());
    }
    var queried := QueryEach(k.last, k.ambient, k.bounding);
    if queried.Err? {
      return Err(());
    }
    if !k.otherCallsOk {
      return Err(());
    }
    var fds := OpenFds(k.candidates, k.open);
    var effective := Bits(k.effective, k.last);
    var permitted := Bits(k.permitted, k.last);
    var inheritable := Bits(k.inheritable, k.last);
    return Ok(Proof(Capabilities(effective, permitted, inheritable, queried.value.0, queried.value.1, k.last),
        k.securebits, k.noNewPrivs, fds));
  }

  ghost predicate ListsHeld(list: seq<int>, words: seq<bv32>, last: nat) {
    StrictlyIncreasing(list) && forall c: int :: c in list <==> 0 <= c <= last && Holds(words, c)
  }

  ghost predicate ListsAnswered(list: seq<int>, answer: nat -> int, last: int) {
    StrictlyIncreasing(list) && forall c: int :: c in list <==> 0 <= c <= last && answer(c) == 1
  }

  /** What a proof of the audit says about the kernel. */
  ghost predicate Reflects(k: Kernel, p: Proof) {
    && ListsHeld(p.capabilities.effective, k.effective, k.last)
    && ListsHeld(p.capabilities.permitted, k.permitted, k.last)
    && ListsHeld(p.capabilities.inheritable, k.inheritable, k.last)
    && ListsAnswered(p.capabilities.ambient, k.ambient, k.last)
    && ListsAnswered(p.capabilities.bounding, k.bounding, k.last)
    && p.capabilities.last == k.last && p.securebits == k.securebits && p.noNewPrivs == k.noNewPrivs
    && StrictlyIncreasing(p.openFds) && forall fd :: fd in p.openFds <==> fd in k.candidates && k.open(fd)
  }

  // ---------------------------------------------------------------- the policy

  datatype PolicyError =
    | ActiveCapabilitiesPresent | DangerousSecurebits | UnexpectedFileDescriptors | InvalidCapabilityStructure
    | InvalidFdStructure

  predicate ValidCapabilities(values: seq<int>, last: nat) {
    Ascending(values) && forall i | 0 <= i < |values| :: values[i] <= last
  }

  predicate ValidFds(values: seq<int>) {
    Ascending(values) && forall i | 0 <= i < |values| :: 0 <= values[i]
  }

  predicate CapabilityStructure(c: Capabilities) {
    && c.last <= HARD_MAX_CAPABILITY_ID
    && ValidCapabilities(c.effective, c.last) && ValidCapabilities(c.permitted, c.last)
    && ValidCapabilities(c.inheritable, c.last)
    && ValidCapabilities(c.ambient, c.last) && ValidCapabilities(c.bounding, c.last)
  }

  method Validate(p: Proof, allowed: seq<int>) returns (r: Result<(), PolicyError>)
    ensures r == Policy(p, allowed)
  {
    var c := p.capabilities;
    if !CapabilityStructure(c) {
      return Err(InvalidCapabilityStructure);
    }
    if !ValidFds(p.openFds) {
      return Err(InvalidFdStructure);
    }
    if c.effective != [] || c.permitted != [] || c.inheritable != [] || c.ambient != [] {
      return Err(ActiveCapabilitiesPresent);
    }
    if p.securebits & DANGEROUS_SECUREBITS_MASK != 0 {
      return Err(DangerousSecurebits);
    }
    var expected := [0, 1, 2];
    expected := expected + allowed;
    expected := Sort(expected);
    expected := Dedup(expected);
    SortedIsCanonical([0, 1, 2] + allowed, p.openFds);
    if p.openFds != expected {
      return Err(UnexpectedFileDescriptors);
    }
    return Ok(());
  }

  /** An increasing list of the standard descriptors and the allowed ones, with none missing. */
  ghost predicate StandardAnd(openFds: seq<int>, allowed: seq<int>) {
    StrictlyIncreasing(openFds) && forall fd :: fd in openFds <==> fd in [0, 1, 2] || fd in allowed
  }

  /** The policy in terms of what a proof holds, not of how the lists are compared. */
  ghost function Policy(p: Proof, allowed: seq<int>): Result<(), PolicyError> {
    var c := p.capabilities;
    if !CapabilityStructure(c) then Err(InvalidCapabilityStructure)
    else if !ValidFds(p.openFds) then Err(InvalidFdStructure)
    else if c.effective != [] || c.permitted != [] || c.inheritable != [] || c.ambient != [] then
      Err(ActiveCapabilitiesPresent)
    else if p.securebits & DANGEROUS_SECUREBITS_MASK != 0 then Err(DangerousSecurebits)
    else if !StandardAnd(p.openFds, allowed) then Err(UnexpectedFileDescriptors)
    else Ok(())
  }

  lemma BoundedIsValid(values: seq<int>, last: nat)
    requires StrictlyIncreasing(values) && forall c | c in values :: c <= last
    ensures ValidCapabilities(values, last)
  {
    AscendingIsStrict(values);
    assert forall i | 0 <= i < |values| :: values[i] in values;
  }

  /** An audited proof never fails the capability-structure check. */
  lemma AuditedStructureIsValid(k: Kernel, p: Proof)
    requires k.last <= HARD_MAX_CAPABILITY_ID && Reflects(k, p)
    ensures CapabilityStructure(p.capabilities)
  {
    var c := p.capabilities;
    BoundedIsValid(c.effective, c.last);
    BoundedIsValid(c.permitted, c.last);
    BoundedIsValid(c.inheritable, c.last);
    BoundedIsValid(c.ambient, c.last);
    BoundedIsValid(c.bounding, c.last);
  }

  /** The part of the policy that looks at descriptors. */
  ghost predicate FdsAccepted(openFds: seq<int>, allowed: seq<int>) {
    ValidFds(openFds) && StandardAnd(openFds, allowed)
  }

  function Present(allowed: seq<int>, found: int -> bool): (r: seq<int>)
    ensures forall fd :: fd in r <==> fd in allowed && found(fd)
  {
    if allowed == [] then [] else if found(allowed[0]) then [allowed[0]] + Present(allowed[1..], found)
      else Present(allowed[1..], found)
  }

  /**
   * The parent keeps of its allowlist what a binary search finds open. For every search that is
   * right on increasing lists, it accepts exactly the increasing lists of descriptors that hold the
   * three standard ones and nothing besides them and the allowed ones.
   */
  lemma ParentAcceptsExactly(openFds: seq<int>, allowed: seq<int>, found: int -> bool)
    requires StrictlyIncreasing(openFds) ==> forall fd :: found(fd) <==> fd in openFds
    ensures FdsAccepted(openFds, Present(allowed, found)) <==>
      && StrictlyIncreasing(openFds) && (forall fd | fd in openFds :: 0 <= fd)
      && 0 in openFds && 1 in openFds && 2 in openFds
      && forall fd | fd in openFds :: fd == 0 || fd == 1 || fd == 2 || fd in allowed
  {
    AscendingIsStrict(openFds);
    assert forall i | 0 <= i < |openFds| :: openFds[i] in openFds;
    assert 0 in [0, 1, 2] && 1 in [0, 1, 2] && 2 in [0, 1, 2];
  }

  /**
   * The policy accepts a proof if and only if no capability is active, no dangerous securebit is set and
   * the rest is in shape.
   */
  lemma PolicyAcceptsExactly(p: Proof, allowed: seq<int>)
    ensures Policy(p, allowed).Ok? <==>
      && p.capabilities.last <= 63 && StrictlyIncreasing(p.capabilities.bounding)
      && (forall c | c in p.capabilities.bounding :: c <= p.capabilities.last)
      && p.capabilities.effective == [] && p.capabilities.permitted == []
      && p.capabilities.inheritable == [] && p.capabilities.ambient == []
      && !BitSet(p.securebits, 0) && !BitSet(p.securebits, 2)
      && StrictlyIncreasing(p.openFds) && (forall fd | fd in p.openFds :: 0 <= fd)
      && forall fd :: fd in p.openFds <==> fd == 0 || fd == 1 || fd == 2 || fd in allowed
  {
    AscendingIsStrict(p.capabilities.bounding);
    AscendingIsStrict(p.openFds);
    SecurebitsExactly(p.securebits);
    assert forall i | 0 <= i < |p.openFds| :: p.openFds[i] in p.openFds;
    assert forall i | 0 <= i < |p.capabilities.bounding| :: p.capabilities.bounding[i] in p.capabilities.bounding;
    assert forall fd: int :: fd in [0, 1, 2] <==> fd == 0 || fd == 1 || fd == 2;
  }

  lemma SecurebitsExactly(bits: bv32)
    ensures bits & DANGEROUS_SECUREBITS_MASK == 0 <==> !BitSet(bits, 0) && !BitSet(bits, 2)
  {
    assert (1 as bv32) << 0 == 1 && (1 as bv32) << 2 == 4;
    assert bits & 5 == 0 <==> bits & 1 == 0 && bits & 4 == 0;
  }
}
