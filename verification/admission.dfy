/** The admission rules for log sinks. */
module Admission {
  import opened GoLang
  import opened SinkRendering

  /** A review request; an object that cannot be deserialized is `None`. */
  datatype Review = Review(operation: string, newObject: Option<LogSink>, oldObject: Option<LogSink>)

  datatype Verdict = Allowed | Denied(message: string) | Undeserializable

  const CHANGE_TYPE := "Changing sink type invalid"
  const NO_LOG_TYPE := "LogSink should have type"
  const SYSLOG_BAD_PORT := "Port for syslog invalid, should be between 1 and 65535"
  const SYSLOG_BAD_HOST := "Host for syslog invalid"
  const SYSLOG_INSECURE := "Insecure syslog sink not allowed"
  const WEBHOOK_BAD_URL := "URL for webhook invalid"
  const WEBHOOK_INSECURE := "Insecure webhook not allowed, scheme must be https"
  const HTTPS := "https://"

  function ValidateSpec(spec: SinkSpec): Verdict {
    if spec.kind == "syslog" then
      if !spec.enableTls then Denied(SYSLOG_INSECURE)
      else if spec.host == "" then Denied(SYSLOG_BAD_HOST)
      else if spec.port > 65535 || spec.port < 1 then Denied(SYSLOG_BAD_PORT)
      else Allowed
    else if spec.kind == "webhook" then
      if spec.url == "" then Denied(WEBHOOK_BAD_URL)
      else if !(HTTPS <= spec.url) then Denied(WEBHOOK_INSECURE)
      else Allowed
    else Denied(NO_LOG_TYPE)
  }

  function ValidateLogSink(r: Review): Verdict {
    match r.newObject
    case None => Undeserializable
    case Some(sink) =>
      if r.operation == "UPDATE" then
        match r.oldObject
        case None => Undeserializable
        case Some(oldSink) => if oldSink.spec.kind != sink.spec.kind then Denied(CHANGE_TYPE) else ValidateSpec(sink.spec)
      else ValidateSpec(sink.spec)
  }

  /** Sinks that only speak TLS, to a place that can exist. */
  predicate Secure(spec: SinkSpec) {
    || (spec.kind == "syslog" && spec.enableTls && spec.host != "" && 1 <= spec.port <= 65535)
    || (spec.kind == "webhook" && HTTPS <= spec.url)
  }

  /** What is let in: secure sinks, and of updates only those that keep the type. */
  lemma AdmitsExactly(r: Review)
    ensures ValidateLogSink(r) == Allowed <==>
            && r.newObject.Some? && Secure(r.newObject.value.spec)
            && (r.operation == "UPDATE" ==> r.oldObject.Some? && r.oldObject.value.spec.kind == r.newObject.value.spec.kind)
  {
    if r.newObject.Some? {
      var spec := r.newObject.value.spec;
      assert HTTPS <= spec.url ==> spec.url != "";
    }
  }

  /** Which message a denied spec gets, by what is wrong with it. */
  lemma DenialsExactly(spec: SinkSpec)
    ensures var v := ValidateSpec(spec); var syslog, webhook := spec.kind == "syslog", spec.kind == "webhook";
      && (v == Denied("LogSink should have type") <==> !syslog && !webhook)
      && (v == Denied("Insecure syslog sink not allowed") <==> syslog && !spec.enableTls)
      && (v == Denied("Host for syslog invalid") <==> syslog && spec.enableTls && spec.host == "")
      && (v == Denied("Port for syslog invalid, should be between 1 and 65535")
          <==> syslog && spec.enableTls && spec.host != "" && !(1 <= spec.port <= 65535))
      && (v == Denied("URL for webhook invalid") <==> webhook && spec.url == "")
      && (v == Denied("Insecure webhook not allowed, scheme must be https") <==> webhook && spec.url != "" && !("https://" <= spec.url))
  {
    assert |NO_LOG_TYPE| == 24 && |SYSLOG_INSECURE| == 32 && |SYSLOG_BAD_HOST| == 23;
    assert |SYSLOG_BAD_PORT| == 54 && |WEBHOOK_BAD_URL| == 23 && |WEBHOOK_INSECURE| == 50;
    assert WEBHOOK_BAD_URL[0] != SYSLOG_BAD_HOST[0];
  }

  /** A change of type is what an update is denied for first; requests that cannot be read get no verdict at all. */
  lemma ReviewsExactly(r: Review)
    ensures ValidateLogSink(r) == Undeserializable <==> r.newObject == None || (r.operation == "UPDATE" && r.oldObject == None)
    ensures ValidateLogSink(r) == Denied("Changing sink type invalid") <==>
            && r.operation == "UPDATE" && r.newObject.Some? && r.oldObject.Some?
            && r.newObject.value.spec.kind != r.oldObject.value.spec.kind
    ensures ValidateLogSink(r) != Undeserializable && ValidateLogSink(r) != Denied("Changing sink type invalid") ==>
      ValidateLogSink(r) == ValidateSpec(r.newObject.value.spec)
  {
    assert |CHANGE_TYPE| == 26 && |NO_LOG_TYPE| == 24 && |SYSLOG_INSECURE| == 32 && |SYSLOG_BAD_HOST| == 23;
    assert |SYSLOG_BAD_PORT| == 54 && |WEBHOOK_BAD_URL| == 23 && |WEBHOOK_INSECURE| == 50;
  }

  /** The spec with the one field that `message` is about copied from `good`. */
  function Repair(message: string, spec: SinkSpec, good: SinkSpec): SinkSpec {
    if message == NO_LOG_TYPE then spec.(kind := good.kind)
    else if message == SYSLOG_INSECURE then spec.(enableTls := good.enableTls)
    else if message == SYSLOG_BAD_HOST then spec.(host := good.host)
    else if message == SYSLOG_BAD_PORT then spec.(port := good.port)
    else spec.(url := good.url)
  }

  /** Repairing what each denial names, at most `n` times. */
  function Repaired(n: nat, spec: SinkSpec, good: SinkSpec): SinkSpec {
    if n == 0 || ValidateSpec(spec) == Allowed then spec
    else Repaired(n - 1, Repair(ValidateSpec(spec).message, spec, good), good)
  }

  /** How many repairs a spec can still need. */
  function Distance(spec: SinkSpec): nat {
    if ValidateSpec(spec) == Allowed then 0
    else if ValidateSpec(spec).message in {SYSLOG_BAD_PORT, WEBHOOK_BAD_URL, WEBHOOK_INSECURE} then 1
    else if ValidateSpec(spec).message == SYSLOG_BAD_HOST then 2
    else if ValidateSpec(spec).message == SYSLOG_INSECURE then 3
    else 4
  }

  lemma RepairComesCloser(spec: SinkSpec, good: SinkSpec)
    requires ValidateSpec(good) == Allowed && ValidateSpec(spec).Denied?
    requires spec.kind == good.kind || spec.kind !in {"syslog", "webhook"}
    ensures var better := Repair(ValidateSpec(spec).message, spec, good);
      Distance(better) < Distance(spec) && better.kind == good.kind
  {
  }

  lemma {:induction false} RepairsLeadToAdmission(n: nat, spec: SinkSpec, good: SinkSpec)
    requires ValidateSpec(good) == Allowed && Distance(spec) <= n
    requires spec.kind == good.kind || spec.kind !in {"syslog", "webhook"}
    ensures ValidateSpec(Repaired(n, spec, good)) == Allowed
  {
    if ValidateSpec(spec) != Allowed {
      var better := Repair(ValidateSpec(spec).message, spec, good);
      RepairComesCloser(spec, good);
      RepairsLeadToAdmission(n - 1, better, good);
    }
  }

  /**
   Denials are all one needs to know: changing only the field each one names, to what it is in some admitted sink of the
   type, leads to admission in at most four rounds.
   */
  lemma FourRepairsSuffice(spec: SinkSpec, good: SinkSpec)
    requires ValidateSpec(good) == Allowed
    requires spec.kind == good.kind || spec.kind !in {"syslog", "webhook"}
    ensures ValidateSpec(Repaired(4, spec, good)) == Allowed
  {
    RepairsLeadToAdmission(4, spec, good);
  }

  /** Four can be needed: for a sink of no type with every other field wrong, too. */
  lemma FourRepairsCanBeNeeded() returns (spec: SinkSpec, good: SinkSpec)
    ensures ValidateSpec(good) == Allowed && spec.kind !in {"syslog", "webhook"}
    ensures ValidateSpec(Repaired(3, spec, good)) != Allowed
  {
    spec, good := SinkSpec("", "", 0, false, "", false), SinkSpec("syslog", "host", 514, true, "", false);
    var one := Repair(ValidateSpec(spec).message, spec, good);
    var two := Repair(ValidateSpec(one).message, one, good);
    var three := Repair(ValidateSpec(two).message, two, good);
    assert Repaired(3, spec, good) == Repaired(2, one, good) == Repaired(1, two, good) == Repaired(0, three, good) == three;
  }

  /** An update of a sink can be admitted if and only if the sink has one of the two types: one stored with another is stuck with it. */
  lemma UpdatableExactly(oldSink: LogSink)
    ensures (exists newSink :: ValidateLogSink(Review("UPDATE", Some(newSink), Some(oldSink))) == Allowed) <==> oldSink.spec.kind in {"syslog", "webhook"}
  {
    if oldSink.spec.kind in {"syslog", "webhook"} {
      var newSink := oldSink.(spec := SinkSpec(oldSink.spec.kind, "host", 514, true, HTTPS, false));
      assert ValidateLogSink(Review("UPDATE", Some(newSink), Some(oldSink))) == Allowed;
    }
  }

  /** The accepted requests one object goes through: its creation and then updates, each from what the last one left. */
  ghost predicate AcceptedChain(reviews: seq<Review>) {
    && (forall i | 0 <= i < |reviews| :: ValidateLogSink(reviews[i]) == Allowed)
    && (forall i | 0 < i < |reviews| :: reviews[i].operation == "UPDATE" && reviews[i].oldObject == reviews[i - 1].newObject)
  }

  lemma {:induction false} TypeNeverChanges(reviews: seq<Review>, i: nat)
    requires AcceptedChain(reviews) && i < |reviews|
    ensures reviews[i].newObject.Some? && Secure(reviews[i].newObject.value.spec)
    ensures reviews[0].newObject.Some? && reviews[i].newObject.value.spec.kind == reviews[0].newObject.value.spec.kind
  {
    AdmitsExactly(reviews[i]);
    if i > 0 {
      TypeNeverChanges(reviews, i - 1);
    }
  }
}
