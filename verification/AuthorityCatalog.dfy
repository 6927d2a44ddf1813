/** The command authority catalogue: policies collapsed by opcode into a sorted table, the generated
  * binary search over it, and the authority decision. */
module AuthorityCatalog {
  import opened Wrappers

  datatype Policy = Policy(name: string, opcode: int, commandClass: string, resource: string, uhfBackupAllowed: bool)

  datatype Collapsed = Conflict | Table(entries: seq<Policy>)

  /** The part of a policy the collapse compares and a decision uses. */
  function Ruling(p: Policy): (string, string, bool) {
    (p.commandClass, p.resource, p.uhfBackupAllowed)
  }

  /** Two policies for one opcode that disagree. */
  ghost predicate Conflicting(policies: seq<Policy>) {
    exists i, j :: 0 <= i < j < |policies| && policies[i].opcode == policies[j].opcode
                   && Ruling(policies[i]) != Ruling(policies[j])
  }

  /** The first policy listed for each opcode. */
  ghost predicate FirstByOpcode(byOpcode: map<int, Policy>, policies: seq<Policy>) {
    && (forall o :: o in byOpcode ==> byOpcode[o] in policies && byOpcode[o].opcode == o)
    && (forall p :: p in policies ==> p.opcode in byOpcode && Ruling(p) == Ruling(byOpcode[p.opcode]))
  }

  ghost predicate Sorted(entries: seq<Policy>) {
    forall i, j :: 0 <= i < j < |entries| ==> entries[i].opcode < entries[j].opcode
  }

  /** A table is faithful: sorted, drawn from the policies, and ruling as every one of them does. */
  ghost predicate Faithful(entries: seq<Policy>, policies: seq<Policy>) {
    && Sorted(entries)
    && (forall e :: e in entries ==> e in policies)
    && (forall p {:trigger Represented(entries, p)} :: p in policies ==> Represented(entries, p))
  }

  ghost predicate Represented(entries: seq<Policy>, p: Policy) {
    exists e :: e in entries && e.opcode == p.opcode && Ruling(e) == Ruling(p)
  }

  method CollapseByOpcode(policies: seq<Policy>) returns (r: Collapsed)
    ensures r.Conflict? <==> Conflicting(policies)
    ensures r.Table? ==> Faithful(r.entries, policies)
  {
    var byOpcode: map<int, Policy> := map[];
    var keys: seq<int> := [];
    for i := 0 to |policies|
      invariant FirstByOpcode(byOpcode, policies[..i])
      invariant forall k :: k in keys <==> k in byOpcode
      invariant !Conflicting(policies[..i])
    {
      var policy := policies[i];
      assert policies[..i + 1] == policies[..i] + [policy];
      if policy.opcode in byOpcode {
        var existing := byOpcode[policy.opcode];
        if Ruling(policy) != Ruling(existing) {
          var k :| 0 <= k < i && policies[k] == existing;
          assert policies[k].opcode == policies[i].opcode;
          return Conflict;
        }
      } else {
        byOpcode, keys := byOpcode[policy.opcode := policy], keys + [policy.opcode];
      }
      NoConflictYet(byOpcode, policies[..i + 1]);
    }
    assert policies[..|policies|] == policies;
    return Table(InOrder(byOpcode, Ordered(keys), policies));
  }

  /** The entries of the table, by increasing opcode. */
  function InOrder(byOpcode: map<int, Policy>, opcodes: seq<int>, ghost policies: seq<Policy>): (entries: seq<Policy>)
    requires FirstByOpcode(byOpcode, policies) && Increasing(opcodes)
    requires forall k :: k in opcodes <==> k in byOpcode
    ensures Faithful(entries, policies)
  {
    assert forall i :: 0 <= i < |opcodes| ==> opcodes[i] in byOpcode by {
      forall i | 0 <= i < |opcodes| ensures opcodes[i] in byOpcode { assert opcodes[i] in opcodes; }
    }
    var entries := seq(|opcodes|, i requires 0 <= i < |opcodes| => byOpcode[opcodes[i]]);
    assert forall p {:trigger Represented(entries, p)} :: p in policies ==> Represented(entries, p) by {
      forall p | p in policies ensures Represented(entries, p) {
        var k :| 0 <= k < |opcodes| && opcodes[k] == p.opcode;
        assert entries[k] in entries;
      }
    }
    entries
  }

  lemma NoConflictYet(byOpcode: map<int, Policy>, policies: seq<Policy>)
    requires FirstByOpcode(byOpcode, policies)
    ensures !Conflicting(policies)
  {
    forall i, j | 0 <= i < j < |policies| && policies[i].opcode == policies[j].opcode
      ensures Ruling(policies[i]) == Ruling(policies[j])
    {
      assert policies[i] in policies && policies[j] in policies;
    }
  }

  predicate Increasing(s: seq<int>) {
    forall i, j :: 0 <= i < j < |s| ==> s[i] < s[j]
  }

  /** Distinct keys in increasing order. */
  function Ordered(keys: seq<int>): (r: seq<int>)
    ensures Increasing(r)
    ensures forall k :: k in r <==> k in keys
  {
    if keys == [] then []
    else
      assert forall k :: k in keys <==> k == keys[0] || k in keys[1..];
      InsertKey(keys[0], Ordered(keys[1..]))
  }

  function InsertKey(k: int, s: seq<int>): (r: seq<int>)
    requires Increasing(s)
    ensures Increasing(r)
    ensures forall x :: x in r <==> x == k || x in s
  {
    if s == [] then [k]
    else if k == s[0] then s
    else if k < s[0] then [k] + s
    else
      var rest := InsertKey(k, s[1..]);
      assert forall x :: x in s <==> x == s[0] || x in s[1..];
      assert forall i :: 0 <= i < |rest| ==> rest[i] in rest;
      [s[0]] + rest
  }

  // ---- the generated search ----

  /** A plain scan: the first policy with the opcode. */
  function Lookup(policies: seq<Policy>, opcode: int): (r: Option<Policy>)
    ensures r.Some? ==> r.value in policies && r.value.opcode == opcode
    ensures r.None? ==> forall p :: p in policies ==> p.opcode != opcode
  {
    if policies == [] then None
    else if policies[0].opcode == opcode then Some(policies[0])
    else Lookup(policies[1..], opcode)
  }

  method FindEntry(catalog: seq<Policy>, opcode: int) returns (r: Option<Policy>)
    requires Sorted(catalog)
    ensures r == Lookup(catalog, opcode)
    ensures r.Some? <==> exists e :: e in catalog && e.opcode == opcode
  {
    var low, high := 0, |catalog|;
    while low < high
      invariant 0 <= low <= high <= |catalog|
      invariant forall i :: 0 <= i < low ==> catalog[i].opcode < opcode
      invariant forall i :: high <= i < |catalog| ==> opcode <= catalog[i].opcode
    {
      var mid := low + (high - low) / 2;
      if catalog[mid].opcode < opcode {
        low := mid + 1;
      } else {
        high := mid;
      }
    }
    if low < |catalog| && catalog[low].opcode == opcode {
      OnlyEntry(catalog, catalog[low]);
      return Some(catalog[low]);
    }
    forall e | e in catalog ensures e.opcode != opcode {
      var i :| 0 <= i < |catalog| && catalog[i] == e;
      assert low < i ==> catalog[low].opcode < catalog[i].opcode;
    }
    return None;
  }

  lemma SameEntry(catalog: seq<Policy>, e: Policy, f: Policy)
    requires Sorted(catalog) && e in catalog && f in catalog && e.opcode == f.opcode
    ensures e == f
  {
    var i :| 0 <= i < |catalog| && catalog[i] == e;
    var k :| 0 <= k < |catalog| && catalog[k] == f;
    assert !(i < k) && !(k < i);
  }

  lemma OnlyEntry(catalog: seq<Policy>, e: Policy)
    requires Sorted(catalog) && e in catalog
    ensures Lookup(catalog, e.opcode) == Some(e)
  {
    SameEntry(catalog, Lookup(catalog, e.opcode).value, e);
  }

  // ---- the decision ----

  datatype Identity = UnknownLink | SBand | Uhf | DevDirect | InternalLink
  datatype Role = UnknownRole | Primary | Backup | PrimaryAfterFailover | DevFull | InternalRole
  datatype Config = Config(valid: bool, identity: Identity, role: Role)

  datatype Reason = NoReason | InvalidConfig | UnknownOpcodeRestricted | PolicyDenied
  datatype Response = Ok | ExecutionError | InvalidOpcode | ValidationError
  datatype Decision = Decision(allow: bool, reason: Reason, response: Response, commandClass: string, resource: string)

  const DENIED: Decision := Decision(false, PolicyDenied, ValidationError, "UNKNOWN", "NONE")

  predicate IsCommManaged(c: Config) {
    !c.valid || c.identity.SBand? || c.identity.Uhf?
  }

  predicate IsRestricted(c: Config) {
    !c.valid || (IsCommManaged(c) && c.role.Backup?)
  }

  /** What the configuration decides about a policy, or about an opcode without one. */
  function Decide(c: Config, policy: Option<Policy>): Decision {
    if !c.valid then DENIED.(reason := InvalidConfig, response := ExecutionError)
    else
      match policy
      case None =>
        if IsCommManaged(c) then DENIED.(reason := UnknownOpcodeRestricted, response := InvalidOpcode)
        else DENIED.(allow := true, reason := NoReason, response := Ok)
      case Some(p) =>
        var d := DENIED.(commandClass := p.commandClass, resource := p.resource);
        if !IsRestricted(c) || p.uhfBackupAllowed then d.(allow := true, reason := NoReason, response := Ok)
        else d.(reason := PolicyDenied, response := ValidationError)
  }

  method EvaluateCommandAuthority(catalog: seq<Policy>, config: Config, opcode: int) returns (decision: Decision)
    requires Sorted(catalog)
    ensures decision == Decide(config, Lookup(catalog, opcode))
  {
    decision := DENIED;
    if !config.valid {
      decision := decision.(reason := InvalidConfig, response := ExecutionError);
      return;
    }
    var entry := FindEntry(catalog, opcode);
    if entry.None? {
      if IsCommManaged(config) {
        decision := decision.(reason := UnknownOpcodeRestricted, response := InvalidOpcode);
      } else {
        decision := decision.(allow := true, reason := NoReason, response := Ok);
      }
      return;
    }
    decision := decision.(commandClass := entry.value.commandClass, resource := entry.value.resource);
    if !IsRestricted(config) || entry.value.uhfBackupAllowed {
      decision := decision.(allow := true, reason := NoReason, response := Ok);
    } else {
      decision := decision.(reason := PolicyDenied, response := ValidationError);
    }
  }

  /** Any policy for the opcode decides as the catalogue does, and so does having none: the index agrees
    * with a plain scan of the policies. */
  lemma CatalogAgrees(catalog: seq<Policy>, policies: seq<Policy>, config: Config, opcode: int)
    requires Faithful(catalog, policies)
    ensures Decide(config, Lookup(catalog, opcode)) == Decide(config, Lookup(policies, opcode))
    ensures forall p :: p in policies && p.opcode == opcode ==>
              Decide(config, Lookup(catalog, opcode)) == Decide(config, Some(p))
    ensures Lookup(catalog, opcode).Some? <==> exists p :: p in policies && p.opcode == opcode
  {
    forall p | p in policies && p.opcode == opcode
      ensures Lookup(catalog, opcode).Some? && Ruling(Lookup(catalog, opcode).value) == Ruling(p)
    {
      assert Represented(catalog, p);
      var e :| e in catalog && e.opcode == p.opcode && Ruling(e) == Ruling(p);
      OnlyEntry(catalog, e);
    }
  }

  /** Listing the policies in another order changes neither whether the collapse fails ... */
  lemma ConflictOrderFree(a: seq<Policy>, b: seq<Policy>)
    requires multiset(a) == multiset(b) && Conflicting(a)
    ensures Conflicting(b)
  {
    var i, j :| 0 <= i < j < |a| && a[i].opcode == a[j].opcode && Ruling(a[i]) != Ruling(a[j]);
    SameMembers(a, b, a[i]);
    SameMembers(a, b, a[j]);
    var k :| 0 <= k < |b| && b[k] == a[i];
    var l :| 0 <= l < |b| && b[l] == a[j];
    if k < l {
      assert b[k].opcode == b[l].opcode;
    } else {
      assert b[l].opcode == b[k].opcode;
    }
  }

  lemma SameMembers(a: seq<Policy>, b: seq<Policy>, p: Policy)
    requires multiset(a) == multiset(b)
    ensures p in a <==> p in b
  {
    assert p in a <==> p in multiset(a);
    assert p in b <==> p in multiset(b);
  }

  /** ... nor any decision. */
  lemma OrderIrrelevant(a: seq<Policy>, b: seq<Policy>, ta: seq<Policy>, tb: seq<Policy>, config: Config, opcode: int)
    requires multiset(a) == multiset(b) && Faithful(ta, a) && Faithful(tb, b)
    ensures Decide(config, Lookup(ta, opcode)) == Decide(config, Lookup(tb, opcode))
  {
    CatalogAgrees(ta, a, config, opcode);
    CatalogAgrees(tb, b, config, opcode);
    forall p ensures p in a <==> p in b {
      SameMembers(a, b, p);
    }
  }

  // ---- the decision, read off the policies ----

  ghost predicate Known(policies: seq<Policy>, opcode: int) {
    exists p :: p in policies && p.opcode == opcode
  }

  /** S-band and UHF are the links the COMM subsystem manages. */
  predicate Managed(c: Config) {
    c.identity in {SBand, Uhf}
  }

  /** Over any policies a faithful table was made from: a command is allowed exactly under a valid configuration
    * that either knows no policy for it and is on a link COMM does not manage, or knows one, which allows the UHF
    * backup unless the link is not managed or not the backup. The class and resource reported are the policy's. */
  lemma DecisionExact(catalog: seq<Policy>, policies: seq<Policy>, c: Config, opcode: int)
    requires Faithful(catalog, policies)
    ensures var d := Decide(c, Lookup(catalog, opcode)); var backup := Managed(c) && c.role == Backup;
            && (d.allow <==>
                  && c.valid
                  && (Known(policies, opcode) || !Managed(c))
                  && forall p :: p in policies && p.opcode == opcode ==> !backup || p.uhfBackupAllowed)
            && (d.reason == NoReason <==> d.allow) && (d.response == Ok <==> d.allow)
            && (d.reason == InvalidConfig <==> !c.valid) && (d.response == ExecutionError <==> !c.valid)
            && (d.reason == UnknownOpcodeRestricted <==> c.valid && !Known(policies, opcode) && Managed(c))
            && (d.response == InvalidOpcode <==> d.reason == UnknownOpcodeRestricted)
            && (d.response == ValidationError <==> d.reason == PolicyDenied)
            && (forall p :: p in policies && p.opcode == opcode && c.valid ==>
                  d.commandClass == p.commandClass && d.resource == p.resource)
            && (!c.valid || !Known(policies, opcode) ==> d.commandClass == "UNKNOWN" && d.resource == "NONE")
  {
    CatalogAgrees(catalog, policies, c, opcode);
    hide Faithful, Lookup;
    if Known(policies, opcode) {
      var p :| p in policies && p.opcode == opcode;
      forall q | q in policies && q.opcode == opcode ensures Decide(c, Some(q)) == Decide(c, Some(p)) {}
      if c.valid {
        forall q | q in policies && q.opcode == opcode ensures Ruling(q) == Ruling(p) {
          SameRuling(catalog, policies, p, q);
        }
      }
    }
  }

  lemma SameRuling(catalog: seq<Policy>, policies: seq<Policy>, p: Policy, q: Policy)
    requires Faithful(catalog, policies) && p in policies && q in policies && p.opcode == q.opcode
    ensures Ruling(p) == Ruling(q)
  {
    assert Represented(catalog, p) && Represented(catalog, q);
    var e :| e in catalog && e.opcode == p.opcode && Ruling(e) == Ruling(p);
    var f :| f in catalog && f.opcode == q.opcode && Ruling(f) == Ruling(q);
    SameEntry(catalog, e, f);
  }
}
