/** The scripted multistep login (internal/recipe/multistep.go). The target's answers are inputs. */
module MultiStep {
  import opened Basics
  import opened Sessions
  import opened Templates

  /** `extract` names the variables that a step's rules set, in order. */
  datatype Step = Step(verb: string, url: string, form: map<string, string>, body: string, extract: seq<string>)

  /** values[k] is what rule k finds in the response, None when the rule fails. */
  datatype StepReply = NoStepReply | StepReply(status: int, values: seq<Option<string>>)

  datatype Request = Request(verb: string, url: string, form: map<string, string>, body: string)

  /** The capture block, with what its bearer rule finds in the last response. */
  datatype Capture = Capture(csrf: string, bearer: Option<Option<string>>)

  type Vars = map<string, string>

  // ---- What the flow computes ----

  function Extract(vars: Vars, names: seq<string>, reply: StepReply, k: nat): Option<Vars>
    requires reply.StepReply? && k <= |names|
  {
    if k == 0 then Some(vars)
    else
      var before, n := Extract(vars, names, reply, k - 1), k - 1;
      if before.Some? && n < |reply.values| && reply.values[n].Some? && reply.values[n].value != ""
      then Some(before.value[names[n] := reply.values[n].value]) else None
  }

  /** The flow variables after `n` steps, or None if one of those steps failed. */
  function VarsAfter(password: string, steps: seq<Step>, replies: seq<StepReply>, n: nat): Option<Vars>
    requires n <= |steps| == |replies|
  {
    if n == 0 then Some(map["password" := password])
    else
      var before, reply := VarsAfter(password, steps, replies, n - 1), replies[n - 1];
      if before.None? || reply.NoStepReply? || reply.status >= 400 then None
      else Extract(before.value, steps[n - 1].extract, reply, |steps[n - 1].extract|)
  }

  /** The chain of replacements in some order; if no value opens a token, the parallel substitution. */
  ghost predicate Renders(template: string, vars: Vars, text: string) {
    && (exists order :: OrderOf(order, vars) && text == Chain(template, vars, order, |order|))
    && (PlainVars(vars) ==> Substituted(template, vars, text))
  }

  ghost predicate Rendered(step: Step, vars: Vars, req: Request) {
    && req.verb == (if step.verb == "" then "GET" else step.verb)
    && Renders(step.url, vars, req.url)
    && req.form.Keys == step.form.Keys
    && (forall f :: f in step.form ==> Renders(step.form[f], vars, req.form[f]))
    && (if step.form != map[] || step.body == "" then req.body == "" else Renders(step.body, vars, req.body))
  }

  /** A session is established exactly when this holds. */
  predicate LogsIn(password: string, steps: seq<Step>, replies: seq<StepReply>, capture: Capture, lastUrlParses: bool, jar: seq<Cookie>)
    requires |steps| == |replies|
  {
    && steps != [] && VarsAfter(password, steps, replies, |steps|).Some? && lastUrlParses
    && (capture.bearer.Some? ==> capture.bearer.value.Some?)
    && (jar != [] || (capture.bearer.Some? && capture.bearer.value.value != ""))
  }

  // ---- What the variables are ----

  /** Step `i` fails: no answer, a status of 400 or more, or a rule that finds nothing. */
  ghost predicate StepFails(step: Step, reply: StepReply) {
    || reply.NoStepReply? || reply.status >= 400
    || exists k :: 0 <= k < |step.extract| && !Finds(reply, k)
  }

  /** Rule `j` is the last of the first `k` that sets `name`. */
  ghost predicate LastIn(names: seq<string>, k: nat, j: int, name: string) {
    0 <= j < k <= |names| && names[j] == name && forall m :: j < m < k ==> names[m] != name
  }

  ghost predicate NotIn(names: seq<string>, k: nat, name: string) {
    k <= |names| && forall m :: 0 <= m < k ==> names[m] != name
  }

  /** Rule `j` finds something. */
  predicate Finds(reply: StepReply, j: int)
    requires reply.StepReply?
  {
    0 <= j < |reply.values| && reply.values[j].Some? && |reply.values[j].value| > 0
  }

  lemma {:induction false} ExtractGoesOn(vars: Vars, names: seq<string>, reply: StepReply, k: nat)
    requires reply.StepReply? && k <= |names|
    ensures Extract(vars, names, reply, k).Some? <==> forall j :: 0 <= j < k ==> Finds(reply, j)
  {
    if k > 0 {
      var n := k - 1;
      ExtractGoesOn(vars, names, reply, n);
      if Extract(vars, names, reply, k).Some? { assert Finds(reply, n); }
      if Extract(vars, names, reply, n).Some? && Finds(reply, n) { assert Extract(vars, names, reply, k).Some?; }
    }
  }

  lemma {:induction false} ExtractHolds(vars: Vars, names: seq<string>, reply: StepReply, k: nat, name: string)
    requires reply.StepReply? && k <= |names| && Extract(vars, names, reply, k).Some?
    ensures var out := Extract(vars, names, reply, k).value;
      && (NotIn(names, k, name) ==> (name in out <==> name in vars) && (name in vars ==> out[name] == vars[name]))
      && (forall j :: LastIn(names, k, j, name) ==> Finds(reply, j) && name in out && out[name] == reply.values[j].value)
  {
    if k > 0 {
      ExtractHolds(vars, names, reply, k - 1, name);
      var out := Extract(vars, names, reply, k).value;
      forall j | LastIn(names, k, j, name) ensures Finds(reply, j) && name in out && out[name] == reply.values[j].value {
        if j < k - 1 { assert LastIn(names, k - 1, j, name); }
      }
      if NotIn(names, k, name) { assert NotIn(names, k - 1, name); }
    }
  }

  /** The flow goes on exactly while no step fails. */
  lemma {:induction false} FlowGoesOn(password: string, steps: seq<Step>, replies: seq<StepReply>, n: nat)
    requires n <= |steps| == |replies|
    ensures VarsAfter(password, steps, replies, n).Some? <==> forall i :: 0 <= i < n ==> !StepFails(steps[i], replies[i])
  {
    if n > 0 {
      FlowGoesOn(password, steps, replies, n - 1);
      var before, step, reply := VarsAfter(password, steps, replies, n - 1), steps[n - 1], replies[n - 1];
      if before.Some? && reply.StepReply? && reply.status < 400 {
        ExtractGoesOn(before.value, step.extract, reply, |step.extract|);
      }
    }
  }

  /** Rule `j` of step `i` is the last one of the first `n` steps that sets `name`. */
  ghost predicate SetBy(steps: seq<Step>, n: nat, i: int, j: int, name: string) {
    && 0 <= i < n <= |steps| && LastIn(steps[i].extract, |steps[i].extract|, j, name)
    && forall m :: i < m < n ==> NotIn(steps[m].extract, |steps[m].extract|, name)
  }

  ghost predicate Unset(steps: seq<Step>, n: nat, name: string) {
    n <= |steps| && forall m :: 0 <= m < n ==> NotIn(steps[m].extract, |steps[m].extract|, name)
  }

  /**
   * A variable holds what the last rule of its name found. One that no rule sets does not exist, but
   * for the password, which is there from the start.
   */
  lemma {:induction false} VariableHolds(password: string, steps: seq<Step>, replies: seq<StepReply>, n: nat, name: string)
    requires n <= |steps| == |replies| && VarsAfter(password, steps, replies, n).Some?
    ensures var vars := VarsAfter(password, steps, replies, n).value;
      && (forall i, j :: SetBy(steps, n, i, j, name) ==>
            replies[i].StepReply? && Finds(replies[i], j) && name in vars && vars[name] == replies[i].values[j].value)
      && (Unset(steps, n, name) ==> if name == "password" then name in vars && vars[name] == password else name !in vars)
  {
    if n > 0 {
      var vars, before := VarsAfter(password, steps, replies, n).value, VarsAfter(password, steps, replies, n - 1).value;
      var names := steps[n - 1].extract;
      VariableHolds(password, steps, replies, n - 1, name);
      ExtractHolds(before, names, replies[n - 1], |names|, name);
      forall i, j | SetBy(steps, n, i, j, name)
        ensures replies[i].StepReply? && Finds(replies[i], j) && name in vars && vars[name] == replies[i].values[j].value
      {
        if i < n - 1 { assert SetBy(steps, n - 1, i, j, name); }
      }
      if Unset(steps, n, name) { assert Unset(steps, n - 1, name); }
    }
  }

  /** A login flow: its steps, and what the target, its last URL and the cookie jar have to say. */
  datatype Flow = Flow(password: string, steps: seq<Step>, replies: seq<StepReply>,
                       capture: Capture, lastUrlParses: bool, jar: seq<Cookie>)

  /** What the flow yields: a session exactly if it logs in, and then just what it captured. */
  ghost predicate Yields(id: string, f: Flow, r: Option<Session>)
    requires |f.steps| == |f.replies|
  {
    && (r.Some? <==> LogsIn(f.password, f.steps, f.replies, f.capture, f.lastUrlParses, f.jar))
    && (r.Some? ==>
          && r.value.identity == id && r.value.cookies == f.jar && r.value.expiresAt == ZERO_TIME
          && r.value.refreshToken == "" && r.value.headers == map[]
          && r.value.bearer == (if f.capture.bearer.Some? then f.capture.bearer.value.value else "")
          && (if f.capture.csrf == "" then r.value.csrf == ""
              else Renders(f.capture.csrf, VarsAfter(f.password, f.steps, f.replies, |f.steps|).value, r.value.csrf)))
  }

  /** A session without a cookie and without a token is never yielded. */
  lemma {:induction false} YieldsMaterial(id: string, f: Flow, r: Option<Session>)
    requires |f.steps| == |f.replies| && Yields(id, f, r) && r.Some?
    ensures r.value.cookies != [] || r.value.bearer != ""
  {
  }

  // ---- The code ----

  method RenderForm(form: map<string, string>, vars: Vars) returns (out: map<string, string>)
    ensures out.Keys == form.Keys
    ensures forall f :: f in form ==> Renders(form[f], vars, out[f])
  {
    out := map[];
    var keys := form.Keys;
    while keys != {}
      invariant keys <= form.Keys && out.Keys == form.Keys - keys
      invariant forall f :: f in out ==> Renders(form[f], vars, out[f])
      decreases |keys|
    {
      var f :| f in keys;
      var text := Subst(form[f], vars);
      out := out[f := text];
      keys := keys - {f};
    }
  }

  method Render(step: Step, vars: Vars) returns (req: Request)
    ensures Rendered(step, vars, req)
  {
    var verb := if step.verb == "" then "GET" else step.verb;
    var url := Subst(step.url, vars);
    var form := RenderForm(step.form, vars);
    var body := "";
    if step.form == map[] && step.body != "" {
      body := Subst(step.body, vars);
    }
    req := Request(verb, url, form, body);
  }

  /** One step's extract rules, in order, up to the first that fails or finds nothing. */
  method ApplyRules(vars: Vars, names: seq<string>, reply: StepReply) returns (out: Option<Vars>)
    requires reply.StepReply?
    ensures out == Extract(vars, names, reply, |names|)
  {
    var now := vars;
    for k := 0 to |names|
      invariant Extract(vars, names, reply, k) == Some(now)
    {
      if k >= |reply.values| || reply.values[k].None? || reply.values[k].value == "" {
        ExtractFailedForGood(vars, names, reply, k + 1, |names|);
        return None;
      }
      now := now[names[k] := reply.values[k].value];
    }
    out := Some(now);
  }

  /** `sent` are the requests of the first steps, each rendered with the variables set before it. */
  ghost predicate Sent(password: string, steps: seq<Step>, replies: seq<StepReply>, sent: seq<Request>)
    requires |steps| == |replies|
  {
    |sent| <= |steps| && forall i {:trigger SentAt(password, steps, replies, i, sent[i])} :: 0 <= i < |sent| ==> SentAt(password, steps, replies, i, sent[i])
  }

  ghost predicate SentAt(password: string, steps: seq<Step>, replies: seq<StepReply>, i: nat, req: Request)
    requires i < |steps| == |replies|
  {
    var vars := VarsAfter(password, steps, replies, i);
    vars.Some? && Rendered(steps[i], vars.value, req)
  }

  lemma {:induction false} SentOneMore(password: string, steps: seq<Step>, replies: seq<StepReply>, sent: seq<Request>, req: Request)
    requires |sent| < |steps| == |replies| && Sent(password, steps, replies, sent)
    requires SentAt(password, steps, replies, |sent|, req)
    ensures Sent(password, steps, replies, sent + [req])
  {
    var sent' := sent + [req];
    forall i | 0 <= i < |sent'| ensures SentAt(password, steps, replies, i, sent'[i]) {
      if i < |sent| { assert SentAt(password, steps, replies, i, sent[i]); }
    }
  }

  /** One more step: its request is sent, and then come the variables after it, or None if it fails. */
  method RunStep(password: string, steps: seq<Step>, replies: seq<StepReply>, sent: seq<Request>, vars: Vars)
    returns (next: Option<Vars>, sent': seq<Request>)
    requires |sent| < |steps| == |replies| && Sent(password, steps, replies, sent)
    requires VarsAfter(password, steps, replies, |sent|) == Some(vars)
    ensures |sent'| == |sent| + 1 && Sent(password, steps, replies, sent')
    ensures next == VarsAfter(password, steps, replies, |sent| + 1)
  {
    var i := |sent|;
    var req := Render(steps[i], vars);
    SentOneMore(password, steps, replies, sent, req);
    sent' := sent + [req];
    next := None;
    if replies[i].StepReply? && replies[i].status < 400 {
      next := ApplyRules(vars, steps[i].extract, replies[i]);
    }
  }

  /** The step loop: it stops at the first step that fails. */
  method RunSteps(password: string, steps: seq<Step>, replies: seq<StepReply>) returns (out: Option<Vars>, sent: seq<Request>)
    requires |steps| == |replies|
    ensures out == VarsAfter(password, steps, replies, |steps|) && Sent(password, steps, replies, sent)
    ensures |sent| < |steps| ==> VarsAfter(password, steps, replies, |sent|).None?
  {
    sent := [];
    var vars := map["password" := password];
    for i := 0 to |steps|
      invariant |sent| == i && VarsAfter(password, steps, replies, i) == Some(vars)
      invariant Sent(password, steps, replies, sent)
    {
      var next;
      next, sent := RunStep(password, steps, replies, sent, vars);
      if next.None? {
        FailedForGood(password, steps, replies, i + 1, |steps|);
        return None, sent;
      }
      vars := next.value;
    }
    out := Some(vars);
  }

  /**
   * Each request is rendered with the variables that the earlier responses set; the first failing
   * step ends the flow, and a flow that captures neither a cookie nor a token is rejected.
   */
  method Establish(id: string, f: Flow) returns (r: Option<Session>, sent: seq<Request>)
    requires |f.steps| == |f.replies|
    ensures Yields(id, f, r) && (r.Some? ==> r.value.cookies != [] || r.value.bearer != "")
    ensures Sent(f.password, f.steps, f.replies, sent)
    ensures |sent| < |f.steps| ==> VarsAfter(f.password, f.steps, f.replies, |sent|).None?
  {
    r := None;
    if f.steps == [] { return None, []; }
    var out;
    out, sent := RunSteps(f.password, f.steps, f.replies);
    if out.None? || !f.lastUrlParses { return; }
    var vars := out.value;
    var csrf := "";
    if f.capture.csrf != "" {
      csrf := Subst(f.capture.csrf, vars);
    }
    var bearer := "";
    if f.capture.bearer.Some? {
      if f.capture.bearer.value.None? { return; }
      bearer := f.capture.bearer.value.value;
    }
    if f.jar == [] && bearer == "" { return; }
    r := Some(Session(id, f.jar, bearer, "", csrf, map[], ZERO_TIME));
  }

  lemma {:induction false} ExtractFailedForGood(vars: Vars, names: seq<string>, reply: StepReply, k: nat, n: nat)
    requires reply.StepReply? && k <= n <= |names| && Extract(vars, names, reply, k).None?
    ensures Extract(vars, names, reply, n).None?
  {
    if k < n { ExtractFailedForGood(vars, names, reply, k, n - 1); }
  }

  /** A failed step ends the flow. */
  lemma {:induction false} FailedForGood(password: string, steps: seq<Step>, replies: seq<StepReply>, i: nat, n: nat)
    requires i <= n <= |steps| == |replies| && VarsAfter(password, steps, replies, i).None?
    ensures VarsAfter(password, steps, replies, n).None?
  {
    if i < n { FailedForGood(password, steps, replies, i, n - 1); }
  }
}
