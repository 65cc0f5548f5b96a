/** Local detection: rules run over a stored event, and each finding is an event of its own whose id is
    derived from what was found (agent/internal/detection/engine.go). */
module Detection {
  import opened Wrappers
  import opened Floats
  import opened Events
  import opened Storage
  import opened StorageProperties
  import opened SQLite

  datatype Verdict = Matched | NotMatched | EvaluationError | Panicked

  datatype Rule = Rule(id: string, version: string, severity: Severity, confidence: Float, reason: string,
                       verdict: CanonicalEvent -> Verdict)

  /** text: the id of the event as spelled. */
  function DedupName(tenant: string, rule: string, version: string, text: string): string {
    tenant + ":" + rule + ":" + version + ":" + text
  }

  const FINDING_CATEGORY := "detection/finding"

  /** Everything in a finding comes from the event and the rule; no clock is read. */
  function Finding(e: CanonicalEvent, text: string, r: Rule): CanonicalEvent {
    CanonicalEvent(
      NameUuid(DedupName(e.tenantId, r.id, r.version, text)), e.tenantId, e.siteId, e.occurredAt, 0, 0, r.severity,
      Some(r.confidence),
      Columns(e.columns.assetId, e.columns.sensorId, "local_detection", FINDING_CATEGORY, "", "", "", "", r.id,
              r.version),
      Plain(r.reason + "\n" + text), CURRENT_SCHEMA_VERSION)
  }

  /** A rule that matches and whose finding passes the schema check. */
  predicate Fires(e: CanonicalEvent, text: string, r: Rule) {
    r.verdict(e) == Matched && Validate(Finding(e, text, r))
  }

  function EvaluateRule(db: Db, quota: int, e: CanonicalEvent, text: string, r: Rule, env: StoreEnv): Db {
    if Fires(e, text, r) then Store(db, quota, Finding(e, text, r), env).db else db
  }

  function EvaluateRules(db: Db, quota: int, e: CanonicalEvent, text: string, rules: seq<Rule>,
                         envs: nat -> StoreEnv): Db {
    if rules == [] then db
    else
      var n := |rules| - 1;
      EvaluateRule(EvaluateRules(db, quota, e, text, rules[..n], envs), quota, e, text, rules[n], envs(n))
  }

  /** Findings are not evaluated themselves. */
  function Detect(db: Db, quota: int, e: CanonicalEvent, text: string, rules: seq<Rule>, envs: nat -> StoreEnv): Db {
    if e.columns.category == FINDING_CATEGORY then db else EvaluateRules(db, quota, e, text, rules, envs)
  }

  class DetectionEngine {
    const db: SQLiteStorage
    const rules: seq<Rule>

    constructor (db: SQLiteStorage, rules: seq<Rule>)
      ensures this.db == db && this.rules == rules
    {
      this.db, this.rules := db, rules;
    }

    method EvaluateRuleSafe(e: CanonicalEvent, text: string, r: Rule, env: StoreEnv)
      modifies db
      ensures db.Contents() == EvaluateRule(old(db.Contents()), db.quotaBytes, e, text, r, env)
    {
      hide Store;
      match r.verdict(e) {
        case Panicked => return;
        case EvaluationError => return;
        case NotMatched =>
        case Matched =>
          var finding := Finding(e, text, r);
          if !Validate(finding) {
            return;
          }
          var stored, result := db.Store(finding, env);
      }
    }

    method Evaluate(e: CanonicalEvent, text: string, envs: nat -> StoreEnv)
      modifies db
      ensures db.Contents() == Detect(old(db.Contents()), db.quotaBytes, e, text, rules, envs)
    {
      hide EvaluateRule;
      if e.columns.category == FINDING_CATEGORY {
        return;
      }
      for i := 0 to |rules|
        invariant db.Contents() == EvaluateRules(old(db.Contents()), db.quotaBytes, e, text, rules[..i], envs)
      {
        assert rules[..i + 1][..i] == rules[..i];
        EvaluateRuleSafe(e, text, rules[i], envs(i));
      }
      assert rules[..|rules|] == rules;
    }
  }

  // ----- What a finding says -----

  /** Whom and what a finding names: the place, the time and the sensor of the event, the severity, confidence and
      rule of the rule, and nothing of the connection the event was about. No clock is read, so the same event and
      rule make the same finding again. */
  lemma FindingTells(e: CanonicalEvent, text: string, r: Rule)
    ensures var f := Finding(e, text, r);
            && f.eventId == NameUuid(e.tenantId + ":" + r.id + ":" + r.version + ":" + text)
            && (f.tenantId, f.siteId, f.columns.assetId, f.columns.sensorId, f.occurredAt)
               == (e.tenantId, e.siteId, e.columns.assetId, e.columns.sensorId, e.occurredAt)
            && (f.severity, f.confidence, f.columns.ruleId, f.columns.ruleVersion)
               == (r.severity, Some(r.confidence), r.id, r.version)
            && (f.columns.source, f.columns.category) == ("local_detection", "detection/finding")
            && (f.columns.protocol, f.columns.src, f.columns.dst, f.columns.action) == ("", "", "", "")
            && f.schemaVersion == "1.0.0" && f.receivedAt == 0 && f.seqNo == 0
  {
  }

  /** Over an event that passes the schema check a matching rule fires exactly if its own columns fit: a listed
      severity, a confidence from 0 to 100 and an id and a version of at most 255 and 64 characters. */
  lemma FiresExactly(e: CanonicalEvent, text: string, r: Rule)
    requires Validate(e)
    ensures Fires(e, text, r) <==>
              && r.verdict(e) == Matched
              && !r.severity.Unlisted? && |r.id| <= 255 && |r.version| <= 64
              && !r.confidence.NaN? && !Less(r.confidence, Num(0.0)) && !Less(Num(100.0), r.confidence)
  {
  }

  /** A rule that fires over an event not stored as a finding before leaves, without failures or quota pressure, a
      row under the finding's id, with the next number and the rule's severity, and nothing else. */
  lemma FiringRuleLeavesRow(db: Db, quota: int, e: CanonicalEvent, text: string, r: Rule, env: StoreEnv)
    requires Inv(db) && Clear(env, quota) && Fires(e, text, r) && Datable(e)
    requires !Present(db, Finding(e, text, r).eventId)
    ensures var id := NameUuid(e.tenantId + ":" + r.id + ":" + r.version + ":" + text);
            var d := EvaluateRule(db, quota, e, text, r, env);
            && id in d.events
            && d.events[id].severity == r.severity && d.events[id].seqNo == db.nextSeqNo
            && d.events[id].payload == Json(Finding(e, text, r).(seqNo := db.nextSeqNo))
            && d.events[id].attempts == 0 && d.events[id].nextAttempt.None?
            && (forall x | x != id :: (x in d.events <==> x in db.events)
                                      && (x in db.events ==> d.events[x] == db.events[x]))
  {
    hide Store, Inv, Fires, Clear, Encodable, Datable;
    FindingEncodable(e, text, r);
    FindingTells(e, text, r);
    StoreClear(db, quota, Finding(e, text, r), env);
  }

  // ----- Evaluating again changes nothing -----

  function FindingIds(e: CanonicalEvent, text: string, rules: seq<Rule>): set<EventId> {
    set i | 0 <= i < |rules| && Fires(e, text, rules[i]) :: Finding(e, text, rules[i]).eventId
  }

  ghost predicate AllPresent(db: Db, ids: set<EventId>) {
    forall id | id in ids :: Present(db, id)
  }

  lemma IdsSnoc(e: CanonicalEvent, text: string, rules: seq<Rule>)
    requires rules != []
    ensures var n := |rules| - 1;
            FindingIds(e, text, rules)
            == FindingIds(e, text, rules[..n])
               + if Fires(e, text, rules[n]) then {Finding(e, text, rules[n]).eventId} else {}
  {
    hide Fires, Finding;
  }

  /** With every finding in the tables, evaluating again leaves the whole database as it is, whatever fails
      and however full the disk is. */
  lemma {:induction false} PresentFindingsAreFinal(db: Db, quota: int, e: CanonicalEvent, text: string,
                                                   rules: seq<Rule>,
                                                   envs: nat -> StoreEnv)
    requires Inv(db) && AllPresent(db, FindingIds(e, text, rules))
    ensures EvaluateRules(db, quota, e, text, rules, envs) == db
  {
    hide Inv, Store, Fires, Finding, FindingIds;
    if rules != [] {
      var n := |rules| - 1;
      IdsSnoc(e, text, rules);
      PresentFindingsAreFinal(db, quota, e, text, rules[..n], envs);
      if Fires(e, text, rules[n]) {
        RestoreIsNoop(db, quota, Finding(e, text, rules[n]), envs(n));
      }
    }
  }

  /** No statement fails and the disk has room. */
  predicate Clear(env: StoreEnv, quota: int) {
    && env.lookupEvents.None? && env.lookupDlq.None? && env.begin.None? && env.write.None? && env.commit.Committed?
    && env.disk(0).size.Some? && env.disk(0).size.value + env.jsonLength + 1024 < quota
  }

  lemma StoreClear(db: Db, quota: int, e: CanonicalEvent, env: StoreEnv)
    requires Inv(db) && Clear(env, quota) && e.eventId != NO_ID
    ensures var d := Store(db, quota, e, env).db;
            && Inv(d) && d.dlq == db.dlq
            && d.events == (if Present(db, e.eventId) || !Encodable(e) then db.events
                            else db.events[e.eventId := FreshRow(db, e)])
            && (!Encodable(e) ==> d == db)
  {
    hide Insert, Inv;
    if Present(db, e.eventId) {
      RestoreIsNoop(db, quota, e, env);
    } else {
      InsertSpec(db, e, env, 0);
    }
  }

  /** A finding can be written exactly if its event's date can. */
  lemma FindingEncodable(e: CanonicalEvent, text: string, r: Rule)
    requires Fires(e, text, r)
    ensures (Encodable(Finding(e, text, r)) <==> Datable(e)) && Finding(e, text, r).eventId != NO_ID
  {
  }

  /** The row's text is the finding of a rule that fires. */
  ghost predicate HoldsFinding(row: Row, e: CanonicalEvent, text: string, rules: seq<Rule>) {
    exists i :: 0 <= i < |rules| && Fires(e, text, rules[i])
                && row.payload == Json(Finding(e, text, rules[i]).(seqNo := row.seqNo))
  }

  lemma HoldsMore(e: CanonicalEvent, text: string, rules: seq<Rule>)
    requires rules != []
    ensures forall row :: HoldsFinding(row, e, text, rules[..|rules| - 1]) ==> HoldsFinding(row, e, text, rules)
    ensures var n := |rules| - 1;
            Fires(e, text, rules[n]) ==>
              forall db: Db :: HoldsFinding(FreshRow(db, Finding(e, text, rules[n])), e, text, rules)
  {
    hide Fires, Finding;
    var n := |rules| - 1;
    forall row | HoldsFinding(row, e, text, rules[..n]) ensures HoldsFinding(row, e, text, rules) {
      var i :| 0 <= i < n && Fires(e, text, rules[i])
               && row.payload == Json(Finding(e, text, rules[i]).(seqNo := row.seqNo));
    }
    if Fires(e, text, rules[n]) {
      forall db: Db ensures HoldsFinding(FreshRow(db, Finding(e, text, rules[n])), e, text, rules) {
        var row := FreshRow(db, Finding(e, text, rules[n]));
        assert row.payload == Json(Finding(e, text, rules[n]).(seqNo := row.seqNo));
      }
    }
  }

  /** Without failures or quota pressure evaluation adds exactly one row per finding not yet known, with the
      finding as its text, and leaves every other row alone. An event whose date JSON cannot name, which no
      store holds, adds nothing. */
  lemma {:induction false} EvaluationAddsFindings(db: Db, quota: int, e: CanonicalEvent, text: string, rules: seq<Rule>,
                                                  envs: nat -> StoreEnv)
    requires Inv(db) && forall i: nat | i < |rules| :: Clear(envs(i), quota)
    ensures var d := EvaluateRules(db, quota, e, text, rules, envs);
            && Inv(d) && d.dlq == db.dlq
            && d.events.Keys == db.events.Keys + (if Datable(e) then FindingIds(e, text, rules) - db.dlq.Keys else {})
            && (!Datable(e) ==> d == db)
            && (forall id | id in db.events :: d.events[id] == db.events[id])
            && (forall id | id in d.events && id !in db.events :: HoldsFinding(d.events[id], e, text, rules))
  {
    hide Inv, Store, Fires, Finding, FindingIds, Clear, Encodable, Datable;
    if rules == [] {
      assert FindingIds(e, text, rules) == {} by { NoRulesNoFindings(e, text); }
    } else {
      var n := |rules| - 1;
      EvaluationAddsFindings(db, quota, e, text, rules[..n], envs);
      IdsSnoc(e, text, rules);
      if Fires(e, text, rules[n]) {
        FindingEncodable(e, text, rules[n]);
        StoreClear(EvaluateRules(db, quota, e, text, rules[..n], envs), quota, Finding(e, text, rules[n]), envs(n));
      }
      HoldsMore(e, text, rules);
    }
  }

  /** An event is evaluated exactly if it is no finding itself, so that findings never breed findings. */
  lemma OnlyTelemetryIsEvaluated(db: Db, quota: int, e: CanonicalEvent, text: string, rules: seq<Rule>,
                                 envs: nat -> StoreEnv)
    requires Inv(db) && Datable(e) && forall i: nat | i < |rules| :: Clear(envs(i), quota)
    ensures Detect(db, quota, e, text, rules, envs).events.Keys
            == db.events.Keys + (if e.columns.category == "detection/finding" then {}
                                 else FindingIds(e, text, rules) - db.dlq.Keys)
    ensures forall f, r, t :: Detect(db, quota, Finding(f, t, r), text, rules, envs) == db
  {
    hide Inv, EvaluateRules, FindingIds, Clear, Datable, Fires;
    EvaluationAddsFindings(db, quota, e, text, rules, envs);
  }

  lemma NoRulesNoFindings(e: CanonicalEvent, text: string)
    ensures FindingIds(e, text, []) == {}
  {
  }

  /** Detection is idempotent over the store: a second evaluation of an event that can be stored, with any
      failures and under any pressure, leaves the tables as the first one left them. */
  lemma EvaluatingTwiceIsOnce(db: Db, quota: int, e: CanonicalEvent, text: string, rules: seq<Rule>,
                              first: nat -> StoreEnv, second: nat -> StoreEnv)
    requires Inv(db) && forall i: nat | i < |rules| :: Clear(first(i), quota)
    ensures var d := Detect(db, quota, e, text, rules, first);
            && (Datable(e) ==> Detect(d, quota, e, text, rules, second) == d)
            && (!Datable(e) ==> d == db)
  {
    hide Inv, EvaluateRules, FindingIds, Clear, Datable;
    if e.columns.category != FINDING_CATEGORY {
      EvaluationAddsFindings(db, quota, e, text, rules, first);
      var d := EvaluateRules(db, quota, e, text, rules, first);
      if Datable(e) { PresentFindingsAreFinal(d, quota, e, text, rules, second); }
    }
  }

  // ----- One finding per rule -----

  lemma FirstColon(a: string, b: string, x: string, y: string)
    requires ':' !in a && ':' !in b && a + ":" + x == b + ":" + y
    ensures a == b && x == y
  {
    var s := a + ":" + x;
    assert s[|a|] == ':' && s[|b|] == ':';
    assert forall i | 0 <= i < |a| :: s[i] == a[i] && a[i] in a;
    assert forall i | 0 <= i < |b| :: s[i] == b[i] && b[i] in b;
    assert a == s[..|a|] && b == s[..|b|];
    assert x == s[|a| + 1..] && y == s[|b| + 1..];
  }

  /** The name tells its four parts apart as long as the first three contain no colon; the event id may. */
  lemma DedupNameInjective(t: string, r: string, v: string, x: string, t': string, r': string, v': string, x': string)
    requires ':' !in t && ':' !in r && ':' !in v && ':' !in t' && ':' !in r' && ':' !in v'
    requires DedupName(t, r, v, x) == DedupName(t', r', v', x')
    ensures t == t' && r == r' && v == v' && x == x'
  {
    assert DedupName(t, r, v, x) == t + ":" + (r + ":" + (v + ":" + x));
    assert DedupName(t', r', v', x') == t' + ":" + (r' + ":" + (v' + ":" + x'));
    FirstColon(t, t', r + ":" + (v + ":" + x), r' + ":" + (v' + ":" + x'));
    FirstColon(r, r', v + ":" + x, v' + ":" + x');
    FirstColon(v, v', x, x');
  }

  predicate NoColons(r: Rule) {
    ':' !in r.id && ':' !in r.version
  }

  /** What a finding's id says of its rule. */
  function RuleName(r: Rule): string {
    r.id + ":" + r.version
  }

  lemma Cancel(t: string, a: string, b: string, x: string)
    ensures t + ":" + a + ":" + x == t + ":" + b + ":" + x <==> a == b
  {
    var l, m := t + ":" + a + ":" + x, t + ":" + b + ":" + x;
    if l == m {
      assert |a| == |b|;
      assert a == l[|t| + 1..|t| + 1 + |a|] && b == m[|t| + 1..|t| + 1 + |b|];
    }
  }

  /** Two rules share a finding exactly if their ids and versions read the same with a colon between them. */
  lemma SameFindingExactly(e: CanonicalEvent, text: string, q: Rule, r: Rule)
    ensures Finding(e, text, q).eventId == Finding(e, text, r).eventId <==> RuleName(q) == RuleName(r)
  {
    Cancel(e.tenantId, RuleName(q), RuleName(r), text);
    assert DedupName(e.tenantId, q.id, q.version, text) == e.tenantId + ":" + RuleName(q) + ":" + text;
    assert DedupName(e.tenantId, r.id, r.version, text) == e.tenantId + ":" + RuleName(r) + ":" + text;
  }

  /** A rule's findings are its own, whatever other rules there are, exactly if its id and version contain no
      colon. */
  lemma FindingIsOwnExactly(e: CanonicalEvent, text: string, q: Rule)
    ensures (forall r: Rule ::
               Finding(e, text, r).eventId == Finding(e, text, q).eventId ==> r.id == q.id && r.version == q.version)
            <==> NoColons(q)
  {
    hide Finding;
    if NoColons(q) {
      forall r: Rule | Finding(e, text, r).eventId == Finding(e, text, q).eventId
        ensures r.id == q.id && r.version == q.version
      {
        SameFindingExactly(e, text, r, q);
        OneColon(q.id, q.version, r.id, r.version);
      }
    } else {
      var r := Shifted(q);
      SameFindingExactly(e, text, r, q);
      assert !(r.id == q.id && r.version == q.version);
    }
  }

  lemma OneColon(a: string, b: string, c: string, d: string)
    requires ':' !in a && ':' !in b && a + ":" + b == c + ":" + d
    ensures a == c && b == d
  {
    var s := a + ":" + b;
    assert forall i | 0 <= i < |s| && s[i] == ':' :: i == |a| by {
      assert forall i | 0 <= i < |a| :: s[i] == a[i] && a[i] in a;
      assert forall i | |a| < i < |s| :: s[i] == b[i - |a| - 1] && b[i - |a| - 1] in b;
    }
    assert s[|c|] == ':';
    assert a == s[..|a|] && c == s[..|c|] && b == s[|a| + 1..] && d == s[|c| + 1..];
  }

  /** The rule whose id ends at another colon of the same text. */
  lemma Shifted(q: Rule) returns (r: Rule)
    requires !NoColons(q)
    ensures RuleName(r) == RuleName(q) && r.id != q.id
  {
    if ':' in q.id {
      var i :| 0 <= i < |q.id| && q.id[i] == ':';
      r := q.(id := q.id[..i], version := q.id[i + 1..] + ":" + q.version);
      assert q.id == q.id[..i] + ":" + q.id[i + 1..];
      assert RuleName(r) == RuleName(q);
    } else {
      var i :| 0 <= i < |q.version| && q.version[i] == ':';
      r := q.(id := q.id + ":" + q.version[..i], version := q.version[i + 1..]);
      assert q.version == q.version[..i] + ":" + q.version[i + 1..];
      assert RuleName(r) == RuleName(q);
    }
  }

  /** Two such rules: distinct, with one finding. */
  lemma ColonsCollide(e: CanonicalEvent, text: string, r: Rule)
    ensures var q, q' := r.(id := "a:b", version := "c"), r.(id := "a", version := "b:c");
            (q.id, q.version) != (q'.id, q'.version) && Finding(e, text, q).eventId == Finding(e, text, q').eventId
  {
    hide Finding;
    var q, q' := r.(id := "a:b", version := "c"), r.(id := "a", version := "b:c");
    assert RuleName(q) == "a:b:c" == RuleName(q');
    SameFindingExactly(e, text, q, q');
  }

  function Firing(e: CanonicalEvent, text: string, rules: seq<Rule>): nat {
    if rules == [] then 0
    else
      var n := |rules| - 1;
      Firing(e, text, rules[..n]) + if Fires(e, text, rules[n]) then 1 else 0
  }

  /** The rules that fire have different names. */
  ghost predicate NamesApart(e: CanonicalEvent, text: string, rules: seq<Rule>) {
    forall i, j | 0 <= i < j < |rules| && Fires(e, text, rules[i]) && Fires(e, text, rules[j]) ::
      RuleName(rules[i]) != RuleName(rules[j])
  }

  /** Some earlier rule that fires has the name of the last one. */
  ghost predicate NameTaken(e: CanonicalEvent, text: string, rules: seq<Rule>)
    requires rules != []
  {
    exists i :: 0 <= i < |rules| - 1 && Fires(e, text, rules[i]) && RuleName(rules[i]) == RuleName(rules[|rules| - 1])
  }

  lemma NamesApartSnoc(e: CanonicalEvent, text: string, rules: seq<Rule>)
    requires rules != []
    ensures var n := |rules| - 1;
            NamesApart(e, text, rules)
            <==> NamesApart(e, text, rules[..n]) && (Fires(e, text, rules[n]) ==> !NameTaken(e, text, rules))
  {
    hide Fires, RuleName;
  }

  lemma TakenIsFound(e: CanonicalEvent, text: string, rules: seq<Rule>)
    requires rules != []
    ensures var n := |rules| - 1;
            NameTaken(e, text, rules) <==> Finding(e, text, rules[n]).eventId in FindingIds(e, text, rules[..n])
  {
    hide Fires, Finding, RuleName;
    var n := |rules| - 1;
    var last := Finding(e, text, rules[n]).eventId;
    forall i | 0 <= i < n
      ensures Finding(e, text, rules[i]).eventId == last <==> RuleName(rules[i]) == RuleName(rules[n])
    {
      SameFindingExactly(e, text, rules[i], rules[n]);
    }
    if last in FindingIds(e, text, rules[..n]) {
      var i :| 0 <= i < n && Fires(e, text, rules[..n][i]) && Finding(e, text, rules[..n][i]).eventId == last;
      assert rules[..n][i] == rules[i];
    }
    if NameTaken(e, text, rules) {
      var i :| 0 <= i < n && Fires(e, text, rules[i]) && RuleName(rules[i]) == RuleName(rules[n]);
      assert rules[..n][i] == rules[i];
    }
  }

  /** Every rule that fires makes a finding of its own exactly if the names of those rules differ. */
  lemma {:induction false} OneFindingPerRuleExactly(e: CanonicalEvent, text: string, rules: seq<Rule>)
    ensures |FindingIds(e, text, rules)| <= Firing(e, text, rules)
    ensures |FindingIds(e, text, rules)| == Firing(e, text, rules) <==> NamesApart(e, text, rules)
  {
    if rules != [] {
      var n := |rules| - 1;
      OneFindingPerRuleExactly(e, text, rules[..n]);
      IdsSnoc(e, text, rules);
      NamesApartSnoc(e, text, rules);
      TakenIsFound(e, text, rules);
      hide Fires, Finding, FindingIds, NamesApart, NameTaken;
    }
  }

  /** In particular, rules that differ in id or version and use no colons make one finding each. */
  lemma OneFindingPerRule(e: CanonicalEvent, text: string, rules: seq<Rule>)
    requires forall i | 0 <= i < |rules| :: NoColons(rules[i])
    requires forall i, j | 0 <= i < j < |rules| :: rules[i].id != rules[j].id || rules[i].version != rules[j].version
    ensures |FindingIds(e, text, rules)| == Firing(e, text, rules)
  {
    hide Fires, Finding;
    forall i, j | 0 <= i < j < |rules| ensures RuleName(rules[i]) != RuleName(rules[j]) {
      NamesDifferWithoutColons(rules[i], rules[j]);
    }
    OneFindingPerRuleExactly(e, text, rules);
  }

  lemma NamesDifferWithoutColons(q: Rule, r: Rule)
    requires NoColons(q)
    ensures RuleName(q) == RuleName(r) ==> q.id == r.id && q.version == r.version
  {
    if RuleName(q) == RuleName(r) { OneColon(q.id, q.version, r.id, r.version); }
  }
}
