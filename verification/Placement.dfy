/** Which kinds of location may stand in which zones. */
module Placement {
  datatype Option<+T> = None | Some(value: T)

  /** A field typed as text: left blank, recognised, or neither. */
  datatype Text<+T> = Blank | Known(value: T) | Unrecognised

  datatype TemperatureClass = Ambient | Chilled | Frozen

  datatype Effect = Allow | Deny

  datatype ZoneAttributes = ZoneAttributes(zoneId: string, zoneCode: string, temperature: TemperatureClass,
          hazmat: bool)

  /** Selects zones; an unset field matches anything. */
  datatype ZonePredicate = ZonePredicate(zoneCode: string, temperature: Option<TemperatureClass>,
          hazmat: Option<bool>) {
    predicate Matches(z: ZoneAttributes) {
      if zoneCode != "" && zoneCode != z.zoneCode then false
      else if temperature.Some? && temperature.value != z.temperature then false
      else if hazmat.Some? && hazmat.value != z.hazmat then false
      else true
    }

    predicate Empty() {
      zoneCode == "" && temperature.None? && hazmat.None?
    }
  }

  datatype PlacementRule = PlacementRule(id: string, locationType: string, effect: Effect, where: ZonePredicate) {
    predicate Denies(locationType: string, z: ZoneAttributes) {
      effect == Deny && this.locationType == locationType && where.Matches(z)
    }

    predicate OpensAllowList(z: ZoneAttributes) {
      effect == Allow && where.Matches(z)
    }
  }

  /** Legal placement, stated over the rules as a set: nothing denies it, and if any matching Allow
      rule makes the zone an allow-list, one of those rules names the location type. */
  ghost predicate Legal(rules: set<PlacementRule>, locationType: string, z: ZoneAttributes) {
    && (forall r :: r in rules ==> !r.Denies(locationType, z))
    && ((exists r :: r in rules && r.OpensAllowList(z)) ==>
          exists r :: r in rules && r.OpensAllowList(z) && r.locationType == locationType)
  }

  datatype Verdict =
    | Permitted
    | DeniedBy(rule: PlacementRule)
    | NotOnAllowList(allowed: seq<PlacementRule>)

  ghost function RuleSet(rules: seq<PlacementRule>): set<PlacementRule> {
    set r | r in rules
  }

  /** What a verdict on these rules must be: permission exactly when legal, otherwise a rule that denies or,
      when none does, the allow-list that leaves the type out. */
  ghost predicate IsVerdict(rules: seq<PlacementRule>, locationType: string, z: ZoneAttributes, verdict: Verdict) {
    && (verdict.Permitted? <==> Legal(RuleSet(rules), locationType, z))
    && (verdict.DeniedBy? <==> exists r :: r in rules && r.Denies(locationType, z))
    && (verdict.DeniedBy? ==> verdict.rule in rules && verdict.rule.Denies(locationType, z))
    && (verdict.NotOnAllowList? ==> forall r :: r in verdict.allowed <==> r in rules && r.OpensAllowList(z))
  }

  /** Every field a rule sets is the zone's own; a blank zone code and an absent field select any zone. */
  predicate Selects(where: ZonePredicate, z: ZoneAttributes) {
    && (where.zoneCode == "" || where.zoneCode == z.zoneCode)
    && (where.temperature == None || where.temperature == Some(z.temperature))
    && (where.hazmat == None || where.hazmat == Some(z.hazmat))
  }

  /** What a verdict means, by the rules' own fields: a rule that denies it is one for the kind that selects the
      zone, an allow-list is the Allow rules that select the zone, and a placement is permitted when nothing
      denies it and any allow-list there is names the kind. */
  lemma VerdictByFields(rules: seq<PlacementRule>, locationType: string, z: ZoneAttributes, v: Verdict)
    requires IsVerdict(rules, locationType, z, v)
    ensures v.DeniedBy? <==>
              exists r :: r in rules && r.effect == Deny && r.locationType == locationType && Selects(r.where, z)
    ensures v.DeniedBy? ==>
              && v.rule in rules && v.rule.effect == Deny && v.rule.locationType == locationType
              && Selects(v.rule.where, z)
    ensures v.NotOnAllowList? <==>
              && !v.DeniedBy?
              && (exists r :: r in rules && r.effect == Allow && Selects(r.where, z))
              && (forall r :: r in rules && r.effect == Allow && Selects(r.where, z) ==> r.locationType != locationType)
    ensures v.NotOnAllowList? ==>
              forall r :: r in v.allowed <==> r in rules && r.effect == Allow && Selects(r.where, z)
  {
    forall r: PlacementRule ensures r.where.Matches(z) == Selects(r.where, z) {
    }
  }

  /** Decides a placement in one pass over the rules; a Deny ends the pass, wherever it stands. */
  method Check(rules: seq<PlacementRule>, locationType: string, z: ZoneAttributes) returns (verdict: Verdict)
    ensures IsVerdict(rules, locationType, z, verdict)
  {
    var allowListed, allowed := false, false;
    for k := 0 to |rules|
      invariant forall i :: 0 <= i < k ==> !rules[i].Denies(locationType, z)
      invariant allowListed <==> exists i :: 0 <= i < k && rules[i].OpensAllowList(z)
      invariant allowed <==>
        exists i :: 0 <= i < k && rules[i].OpensAllowList(z) && rules[i].locationType == locationType
    {
      var rule := rules[k];
      if !rule.where.Matches(z) {
        continue;
      }
      match rule.effect {
        case Deny =>
          if rule.locationType == locationType {
            assert rule in RuleSet(rules) && rule.Denies(locationType, z);
            return DeniedBy(rule);
          }
        case Allow =>
          allowListed := true;
          if rule.locationType == locationType {
            allowed := true;
          }
      }
    }
    if allowListed && !allowed {
      var listed := AllowRules(rules, z);
      return NotOnAllowList(listed);
    }
    return Permitted;
  }

  /** The Allow rules that make the zone an allow-list, in order, for the error text. */
  method AllowRules(rules: seq<PlacementRule>, z: ZoneAttributes) returns (listed: seq<PlacementRule>)
    ensures forall r :: r in listed <==> r in rules && r.OpensAllowList(z)
  {
    listed := [];
    for k := 0 to |rules|
      invariant forall r :: r in listed <==> r in rules[..k] && r.OpensAllowList(z)
    {
      if rules[k].effect == Allow && rules[k].where.Matches(z) {
        listed := listed + [rules[k]];
      }
    }
    assert rules[..|rules|] == rules;
  }

  /** The order rules are listed in never changes a verdict: it is of the same kind, names a denying rule of
      the same rules, or the same allow-list. */
  lemma OrderIsIrrelevant(rules: seq<PlacementRule>, rules': seq<PlacementRule>, locationType: string,
          z: ZoneAttributes, v: Verdict, v': Verdict)
    requires multiset(rules) == multiset(rules')
    requires IsVerdict(rules, locationType, z, v) && IsVerdict(rules', locationType, z, v')
    ensures v.Permitted? == v'.Permitted? && v.DeniedBy? == v'.DeniedBy? && v.NotOnAllowList? == v'.NotOnAllowList?
    ensures v.DeniedBy? ==> v.rule in rules' && v.rule.Denies(locationType, z)
    ensures v.NotOnAllowList? ==> RuleSet(v.allowed) == RuleSet(v'.allowed)
  {
    forall r ensures r in rules <==> r in rules' {
      assert r in rules <==> r in multiset(rules);
      assert r in rules' <==> r in multiset(rules');
    }
    assert RuleSet(rules) == RuleSet(rules');
  }

  /** A denied placement stays denied however many rules are added. */
  lemma DenyIsForever(rules: set<PlacementRule>, more: set<PlacementRule>, deny: PlacementRule, locationType: string,
          z: ZoneAttributes)
    requires deny in rules && rules <= more && deny.Denies(locationType, z)
    ensures !Legal(more, locationType, z)
  {
    assert deny in more;
  }
}
