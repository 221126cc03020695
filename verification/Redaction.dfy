/**
  Redacting secrets for API clients and merging them back on update
  (internal/api/secret_redaction.go and journey_redaction.go). A nil map is None.
  Fields the code never touches are carried as one opaque string, and whether a
  target holds credentials is a parameter.
 */
module Secrets {
  import opened Options

  const MASK := "[REDACTED]"
  const STARS := "***"

  /** unicode.IsSpace. */
  predicate IsSpace(c: char)
  {
    c in {'\t', '\n', '\U{B}', '\U{C}', '\r', ' ', '\U{85}', '\U{A0}', '\U{1680}', '\U{2028}', '\U{2029}', '\U{202F}',
          '\U{205F}', '\U{3000}'}
    || '\U{2000}' <= c <= '\U{200A}'
  }

  function TrimLeft(s: string): string
  {
    if s != "" && IsSpace(s[0]) then TrimLeft(s[1..]) else s
  }

  function TrimRight(s: string): string
  {
    if s != "" && IsSpace(s[|s| - 1]) then TrimRight(s[..|s| - 1]) else s
  }

  function TrimSpace(s: string): string
  {
    TrimRight(TrimLeft(s))
  }

  predicate Blank(s: string)
  {
    TrimSpace(s) == ""
  }

  lemma MaskIsNotBlank()
    ensures TrimSpace(MASK) == MASK
  {
    assert !IsSpace('[') && !IsSpace(']');
    assert MASK[0] == '[' && MASK[|MASK| - 1] == ']';
  }

  function RedactSecret(value: string): string
  {
    if Blank(value) then value else MASK
  }

  predicate IsRedacted(value: string)
  {
    var trimmed := TrimSpace(value);
    trimmed == "" || trimmed == MASK || trimmed == STARS
  }

  function Preserve(existing: string, incoming: string): string
  {
    if IsRedacted(incoming) then existing else incoming
  }

  /** Whatever the secret, its redacted form asks for it to be kept. */
  lemma RedactedIsPreserved(secret: string)
    ensures IsRedacted(RedactSecret(secret)) && Preserve(secret, RedactSecret(secret)) == secret
  {
    MaskIsNotBlank();
  }

  // What blanks and placeholders are ------------------------------------

  predicate OnlySpaces(s: string)
  {
    forall i :: 0 <= i < |s| ==> IsSpace(s[i])
  }

  lemma {:induction false} TrimLeftPadded(pre: string, rest: string)
    requires OnlySpaces(pre) && (rest == "" || !IsSpace(rest[0]))
    ensures TrimLeft(pre + rest) == rest
  {
    if pre == "" {
      assert pre + rest == rest;
    } else {
      assert (pre + rest)[1..] == pre[1..] + rest;
      TrimLeftPadded(pre[1..], rest);
    }
  }

  lemma {:induction false} TrimRightPadded(core: string, post: string)
    requires OnlySpaces(post) && (core == "" || !IsSpace(core[|core| - 1]))
    ensures TrimRight(core + post) == core
  {
    if post == "" {
      assert core + post == core;
    } else {
      assert (core + post)[..|core + post| - 1] == core + post[..|post| - 1];
      TrimRightPadded(core, post[..|post| - 1]);
    }
  }

  /** The text without the white space around it. */
  lemma TrimPadded(pre: string, core: string, post: string)
    requires OnlySpaces(pre) && OnlySpaces(post)
    requires core != "" ==> !IsSpace(core[0]) && !IsSpace(core[|core| - 1])
    ensures TrimSpace(pre + core + post) == core
  {
    if core == "" {
      var all := pre + core + post;
      assert OnlySpaces(all) && all + "" == all;
      TrimLeftPadded(all, "");
    } else {
      assert pre + core + post == pre + (core + post);
      TrimLeftPadded(pre, core + post);
      TrimRightPadded(core, post);
    }
  }

  lemma {:induction false} TrimLeftSplits(s: string) returns (pre: string)
    ensures s == pre + TrimLeft(s) && OnlySpaces(pre)
  {
    if s != "" && IsSpace(s[0]) {
      var p := TrimLeftSplits(s[1..]);
      pre := [s[0]] + p;
    } else {
      pre := "";
    }
  }

  lemma {:induction false} TrimRightSplits(s: string) returns (post: string)
    ensures s == TrimRight(s) + post && OnlySpaces(post)
  {
    if s != "" && IsSpace(s[|s| - 1]) {
      var p := TrimRightSplits(s[..|s| - 1]);
      post := p + [s[|s| - 1]];
    } else {
      post := "";
    }
  }

  lemma TrimSplits(s: string) returns (pre: string, post: string)
    ensures s == pre + TrimSpace(s) + post && OnlySpaces(pre) && OnlySpaces(post)
  {
    pre := TrimLeftSplits(s);
    post := TrimRightSplits(TrimLeft(s));
  }

  /** Blank is white space only. */
  lemma BlankMeans(s: string)
    ensures Blank(s) <==> OnlySpaces(s)
  {
    var pre, post := TrimSplits(s);
    if OnlySpaces(s) {
      TrimPadded(s, "", "");
      assert s + "" + "" == s;
    }
  }

  /** White space around nothing, around the mask or around three stars. */
  ghost predicate Padded(s: string, core: string)
  {
    exists pre, post :: OnlySpaces(pre) && OnlySpaces(post) && s == pre + core + post
  }

  lemma PlaceholderMeans(s: string)
    ensures IsRedacted(s) <==> Padded(s, "") || Padded(s, "[REDACTED]") || Padded(s, "***")
  {
    var pre, post := TrimSplits(s);
    assert Padded(s, TrimSpace(s));
    assert !IsSpace('[') && !IsSpace(']') && !IsSpace('*');
    PaddedTrims(s, "");
    PaddedTrims(s, "[REDACTED]");
    PaddedTrims(s, "***");
  }

  lemma PaddedTrims(s: string, core: string)
    requires core != "" ==> !IsSpace(core[0]) && !IsSpace(core[|core| - 1])
    ensures Padded(s, core) ==> TrimSpace(s) == core
  {
    if Padded(s, core) {
      var pre, post :| OnlySpaces(pre) && OnlySpaces(post) && s == pre + core + post;
      TrimPadded(pre, core, post);
    }
  }

  // ---------------------------------------------------------------------
  // String maps
  // ---------------------------------------------------------------------

  /** White space stays as it is; anything else has become the mask. */
  predicate Masked(value: string, shown: string)
  {
    if OnlySpaces(value) then shown == value else shown == "[REDACTED]"
  }

  lemma RedactSecretMasks(value: string)
    ensures Masked(value, RedactSecret(value))
  {
    BlankMeans(value);
  }

  /** nil stays nil, keys stay, every value is masked. */
  ghost predicate MaskedMap(m: StringMap, shown: StringMap)
  {
    match m
    case None => shown.None?
    case Some(values) =>
      shown.Some? && shown.value.Keys == values.Keys && forall k :: k in values ==> Masked(values[k], shown.value[k])
  }

  lemma MaskValuesMasks(m: StringMap)
    ensures MaskedMap(m, MaskValues(m))
  {
    if m.Some? {
      forall k | k in m.value
        ensures Masked(m.value[k], RedactSecret(m.value[k]))
      {
        RedactSecretMasks(m.value[k]);
      }
    }
  }

  /** The value that was sent, or the stored one when a placeholder was sent. */
  predicate Kept(stored: string, sent: string, result: string)
  {
    if IsRedacted(sent) then result == stored else result == sent
  }

  /** Nothing sent keeps everything; otherwise sent keys are kept or taken, and keys that were not sent stay. */
  ghost predicate KeptMap(stored: StringMap, sent: StringMap, result: StringMap)
  {
    if sent.None? then result == stored
    else
      && result.Some?
      && (forall k :: k in sent.value ==> k in result.value && Kept(Get(stored, k), sent.value[k], result.value[k]))
      && (forall k :: k in result.value && k !in sent.value ==> stored.Some? && k in stored.value)
      && (stored.Some? ==> forall k :: k in stored.value && k !in sent.value ==>
                             k in result.value && result.value[k] == stored.value[k])
  }

  /** An edit wins, a placeholder does not. */
  lemma MergeKeepsOrTakes(stored: StringMap, sent: StringMap)
    ensures KeptMap(stored, sent, MergedStrings(stored, sent))
  {
  }

  type StringMap = Option<map<string, string>>

  function Get(m: StringMap, key: string): string
  {
    if m.Some? && key in m.value then m.value[key] else ""
  }

  function MaskValues(m: StringMap): StringMap
  {
    match m case None => None case Some(values) => Some(map k | k in values :: RedactSecret(values[k]))
  }

  function MergedStrings(existing: StringMap, incoming: StringMap): StringMap
  {
    match incoming
    case None => existing
    case Some(values) =>
      var base := if existing.Some? then existing.value else map[];
      Some(map k | k in base.Keys + values.Keys ::
             if k in values then Preserve(Get(existing, k), values[k]) else base[k])
  }

  method MergeSecretStringMap(existing: StringMap, incoming: StringMap) returns (merged: StringMap)
    ensures merged == MergedStrings(existing, incoming)
  {
    if incoming.None? {
      return existing;
    }
    var base := if existing.Some? then existing.value else map[];
    ghost var target := MergedStrings(existing, incoming).value;
    var result, todo := base, incoming.value.Keys;
    while todo != {}
      invariant todo <= incoming.value.Keys
      invariant forall k :: k in result <==> k in base || (k in incoming.value && k !in todo)
      invariant forall k :: k in result ==>
        result[k] == if k in incoming.value && k !in todo then target[k] else base[k]
    {
      var key :| key in todo;
      var value := Preserve(Get(existing, key), incoming.value[key]);
      assert value == target[key];
      result := result[key := value];
      todo := todo - {key};
    }
    assert forall k :: k in result <==> k in target;
    assert result == target;
    return Some(result);
  }

  /** Masked values come back, nil stays nil. */
  lemma MaskThenMerge(m: StringMap)
    ensures MergedStrings(m, MaskValues(m)) == m
  {
    if m.Some? {
      var values := m.value;
      var back := MergedStrings(m, MaskValues(m)).value;
      assert back.Keys == values.Keys;
      forall k | k in values
        ensures back[k] == values[k]
      {
        RedactedIsPreserved(values[k]);
      }
      assert back == values;
    }
  }
}

module JourneyRedaction {
  import opened Options
  import opened Secrets

  datatype Http = Http(verb: string, headers: StringMap, responseHeaders: StringMap, body: string,
                       followRedirects: bool, maxRedirects: int, rest: string)

  datatype Tcp = Tcp(send: string, rest: string)

  datatype Udp = Udp(sendHex: string, rest: string)

  datatype Step = Step(name: string, kind: string, target: string, http: Option<Http>, tcp: Option<Tcp>,
                       udp: Option<Udp>, rest: string)

  datatype Journey = Journey(variables: StringMap, steps: seq<Step>, rest: string)

  // Redaction -----------------------------------------------------------

  function RedactStep(s: Step, secret: string -> bool): Step
  {
    s.(target := if secret(s.target) then MASK else s.target,
       http := match s.http {
         case Some(h) => Some(h.(headers := MaskValues(h.headers), responseHeaders := MaskValues(h.responseHeaders),
                                 body := RedactSecret(h.body)))
         case None => None
       },
       tcp := match s.tcp { case Some(t) => Some(t.(send := RedactSecret(t.send))) case None => None },
       udp := match s.udp { case Some(u) => Some(u.(sendHex := RedactSecret(u.sendHex))) case None => None })
  }

  function Redacted(j: Journey, secret: string -> bool): Journey
  {
    j.(variables := MaskValues(j.variables),
       steps := seq(|j.steps|, i requires 0 <= i < |j.steps| => RedactStep(j.steps[i], secret)))
  }

  /** Every secret of the step is masked, and nothing else differs. */
  ghost predicate MaskedStep(s: Step, shown: Step, secret: string -> bool)
  {
    && shown.name == s.name && shown.kind == s.kind && shown.rest == s.rest
    && shown.target == (if secret(s.target) then "[REDACTED]" else s.target)
    && (match s.http
        case None => shown.http.None?
        case Some(h) => shown.http.Some? && MaskedHttp(h, shown.http.value))
    && (match s.tcp
        case None => shown.tcp.None?
        case Some(t) => shown.tcp.Some? && Masked(t.send, shown.tcp.value.send) && shown.tcp.value.rest == t.rest)
    && (match s.udp
        case None => shown.udp.None?
        case Some(u) => shown.udp.Some? && Masked(u.sendHex, shown.udp.value.sendHex) && shown.udp.value.rest == u.rest)
  }

  ghost predicate MaskedHttp(h: Http, shown: Http)
  {
    && MaskedMap(h.headers, shown.headers) && MaskedMap(h.responseHeaders, shown.responseHeaders)
    && Masked(h.body, shown.body)
    && shown.verb == h.verb && shown.followRedirects == h.followRedirects && shown.maxRedirects == h.maxRedirects
    && shown.rest == h.rest
  }

  ghost predicate MaskedJourney(j: Journey, shown: Journey, secret: string -> bool)
  {
    && MaskedMap(j.variables, shown.variables) && shown.rest == j.rest && |shown.steps| == |j.steps|
    && forall i :: 0 <= i < |j.steps| ==> MaskedStep(j.steps[i], shown.steps[i], secret)
  }

  lemma RedactStepMasks(s: Step, secret: string -> bool)
    ensures MaskedStep(s, RedactStep(s, secret), secret)
  {
    if s.http.Some? {
      MaskValuesMasks(s.http.value.headers);
      MaskValuesMasks(s.http.value.responseHeaders);
      RedactSecretMasks(s.http.value.body);
    }
    if s.tcp.Some? {
      RedactSecretMasks(s.tcp.value.send);
    }
    if s.udp.Some? {
      RedactSecretMasks(s.udp.value.sendHex);
    }
  }

  /** Every variable, header, body, payload and secret target of the view is masked, and nothing else differs. */
  lemma RedactedIsMasked(j: Journey, secret: string -> bool)
    ensures MaskedJourney(j, Redacted(j, secret), secret)
  {
    MaskValuesMasks(j.variables);
    forall i | 0 <= i < |j.steps|
      ensures MaskedStep(j.steps[i], Redacted(j, secret).steps[i], secret)
    {
      RedactStepMasks(j.steps[i], secret);
    }
  }

  method RedactJourney(j: Journey, secret: string -> bool) returns (out: Journey)
    ensures MaskedJourney(j, out, secret)
    ensures out == Redacted(j, secret)
  {
    var steps := j.steps;
    for i := 0 to |steps|
      invariant |steps| == |j.steps|
      invariant forall k :: 0 <= k < i ==> steps[k] == RedactStep(j.steps[k], secret)
      invariant forall k :: i <= k < |steps| ==> steps[k] == j.steps[k]
    {
      var step := steps[i];
      if secret(step.target) {
        step := step.(target := MASK);
      }
      if step.http.Some? {
        var h := step.http.value;
        step := step.(http := Some(h.(headers := MaskValues(h.headers),
                                      responseHeaders := MaskValues(h.responseHeaders), body := RedactSecret(h.body))));
      }
      if step.tcp.Some? {
        step := step.(tcp := Some(step.tcp.value.(send := RedactSecret(step.tcp.value.send))));
      }
      if step.udp.Some? {
        step := step.(udp := Some(step.udp.value.(sendHex := RedactSecret(step.udp.value.sendHex))));
      }
      steps := steps[i := step];
    }
    out := j.(variables := MaskValues(j.variables), steps := steps);
    RedactedIsMasked(j, secret);
  }

  // Merging -------------------------------------------------------------

  predicate IsMask(v: string)
  {
    v == MASK || v == STARS
  }

  predicate MapHasMask(m: StringMap)
  {
    m.Some? && exists k :: k in m.value && IsMask(m.value[k])
  }

  predicate StepHasMask(s: Step)
  {
    IsMask(s.target) || PayloadHasMask(s)
  }

  predicate PayloadHasMask(s: Step)
  {
    || (s.http.Some? && (IsMask(s.http.value.body) || MapHasMask(s.http.value.headers)
                         || MapHasMask(s.http.value.responseHeaders)))
    || (s.tcp.Some? && IsMask(s.tcp.value.send))
    || (s.udp.Some? && IsMask(s.udp.value.sendHex))
  }

  predicate HasMasks(j: Journey)
  {
    MapHasMask(j.variables) || exists i :: 0 <= i < |j.steps| && StepHasMask(j.steps[i])
  }

  predicate VariableEdited(stored: Journey, incoming: Journey)
  {
    && incoming.variables.Some?
    && var values := incoming.variables.value;
       exists k :: k in values && !IsMask(values[k]) && values[k] != Get(stored.variables, k)
  }

  function RestoreTarget(a: Step, b: Step): Step
  {
    if a.name == b.name && a.kind == b.kind && b.target == MASK then b.(target := a.target) else b
  }

  /** The destination of the step differs. */
  predicate Moved(a: Step, b: Step)
  {
    a.name != b.name || a.kind != b.kind || a.target != b.target
    || (a.http.Some? && b.http.Some?
        && (a.http.value.verb != b.http.value.verb || a.http.value.followRedirects != b.http.value.followRedirects
            || a.http.value.maxRedirects != b.http.value.maxRedirects))
  }

  function MergeStep(a: Step, b: Step): Step
  {
    b.(http := if a.http.Some? && b.http.Some? then
                 var x, y := a.http.value, b.http.value;
                 Some(y.(headers := MergedStrings(x.headers, y.headers),
                         responseHeaders := MergedStrings(x.responseHeaders, y.responseHeaders),
                         body := Preserve(x.body, y.body)))
               else b.http,
       tcp := if a.tcp.Some? && b.tcp.Some?
              then Some(b.tcp.value.(send := Preserve(a.tcp.value.send, b.tcp.value.send))) else b.tcp,
       udp := if a.udp.Some? && b.udp.Some?
              then Some(b.udp.value.(sendHex := Preserve(a.udp.value.sendHex, b.udp.value.sendHex))) else b.udp)
  }

  /** The first pass: masked targets of steps that kept their name and type. */
  function WithTargets(stored: Journey, incoming: Journey): Journey
  {
    incoming.(steps := seq(|incoming.steps|, i requires 0 <= i < |incoming.steps| =>
      if i < |stored.steps| then RestoreTarget(stored.steps[i], incoming.steps[i]) else incoming.steps[i]))
  }

  predicate Changed(stored: Journey, incoming: Journey)
  {
    || |stored.steps| != |incoming.steps|
    || VariableEdited(stored, incoming)
    || exists i :: 0 <= i < |incoming.steps| && i < |stored.steps|
                   && Moved(stored.steps[i], WithTargets(stored, incoming).steps[i])
  }

  function MergedAll(stored: Journey, incoming: Journey): Journey
    requires |stored.steps| == |incoming.steps|
  {
    incoming.(variables := MergedStrings(stored.variables, incoming.variables),
              steps := seq(|incoming.steps|, i requires 0 <= i < |incoming.steps| =>
                MergeStep(stored.steps[i], incoming.steps[i])))
  }

  /** The journey that is stored, and whether the update was accepted. */
  function Merge(stored: Journey, incoming: Journey): (Journey, bool)
  {
    var targeted := WithTargets(stored, incoming);
    if Changed(stored, incoming) then (targeted, !HasMasks(targeted)) else (MergedAll(stored, targeted), true)
  }

  method AnyVariableEdited(stored: Journey, incoming: Journey) returns (edited: bool)
    ensures edited == VariableEdited(stored, incoming)
  {
    if incoming.variables.None? {
      return false;
    }
    var values := incoming.variables.value;
    var todo := values.Keys;
    while todo != {}
      invariant todo <= values.Keys
      invariant forall k :: k in values && k !in todo ==> IsMask(values[k]) || values[k] == Get(stored.variables, k)
    {
      var key :| key in todo;
      if values[key] != MASK && values[key] != STARS && values[key] != Get(stored.variables, key) {
        return true;
      }
      todo := todo - {key};
    }
    return false;
  }

  method MergeJourneySecrets(stored: Journey, incoming: Journey) returns (result: Journey, ok: bool)
    ensures (result, ok) == Merge(stored, incoming)
  {
    var edited := AnyVariableEdited(stored, incoming);
    var changed := |stored.steps| != |incoming.steps| || edited;
    var steps := incoming.steps;
    ghost var targeted := WithTargets(stored, incoming);
    for i := 0 to |steps|
      invariant |steps| == |incoming.steps|
      invariant forall k :: 0 <= k < i ==> steps[k] == targeted.steps[k]
      invariant forall k :: i <= k < |steps| ==> steps[k] == incoming.steps[k]
      invariant changed <==>
        (|stored.steps| != |incoming.steps| || edited
         || exists k :: 0 <= k < i && k < |stored.steps| && Moved(stored.steps[k], targeted.steps[k]))
    {
      if i >= |stored.steps| {
        continue;
      }
      var a, b := stored.steps[i], steps[i];
      if a.name == b.name && a.kind == b.kind && b.target == MASK {
        b := b.(target := a.target);
      }
      steps := steps[i := b];
      if Moved(a, b) {
        changed := true;
      }
    }
    result := incoming.(steps := steps);
    assert result == targeted;
    if changed {
      return result, !HasMasks(result);
    }
    var variables := MergeSecretStringMap(stored.variables, incoming.variables);
    for i := 0 to |steps|
      invariant |steps| == |incoming.steps|
      invariant forall k :: 0 <= k < i ==> steps[k] == MergeStep(stored.steps[k], targeted.steps[k])
      invariant forall k :: i <= k < |steps| ==> steps[k] == targeted.steps[k]
    {
      steps := steps[i := MergeStep(stored.steps[i], steps[i])];
    }
    result := result.(variables := variables, steps := steps);
    assert result.steps == MergedAll(stored, targeted).steps;
    return result, true;
  }

  // What changed, and what an update keeps ------------------------------

  /** Another name, type or HTTP destination, or another target than the mask. */
  predicate StepMoved(a: Step, b: Step)
  {
    || a.name != b.name
    || a.kind != b.kind
    || (b.target != "[REDACTED]" && b.target != a.target)
    || (a.http.Some? && b.http.Some?
        && (a.http.value.verb, a.http.value.followRedirects, a.http.value.maxRedirects)
           != (b.http.value.verb, b.http.value.followRedirects, b.http.value.maxRedirects))
  }

  ghost predicate VariableSent(stored: Journey, incoming: Journey, k: string)
  {
    && incoming.variables.Some? && k in incoming.variables.value
    && incoming.variables.value[k] !in ["[REDACTED]", "***"]
    && incoming.variables.value[k] != Get(stored.variables, k)
  }

  /** The number of steps, a new value of a variable, or a step that moved. */
  lemma ChangedMeans(stored: Journey, incoming: Journey)
    ensures Changed(stored, incoming) <==>
            || |stored.steps| != |incoming.steps|
            || (exists k :: VariableSent(stored, incoming, k))
            || (exists i :: 0 <= i < |stored.steps| && StepMoved(stored.steps[i], incoming.steps[i]))
  {
    VariableEditedMeans(stored, incoming);
    if |stored.steps| == |incoming.steps| {
      forall i | 0 <= i < |stored.steps|
        ensures Moved(stored.steps[i], WithTargets(stored, incoming).steps[i])
           <==> StepMoved(stored.steps[i], incoming.steps[i])
      {
      }
    }
  }

  lemma VariableEditedMeans(stored: Journey, incoming: Journey)
    ensures VariableEdited(stored, incoming) <==> exists k :: VariableSent(stored, incoming, k)
  {
    if VariableEdited(stored, incoming) {
      var values := incoming.variables.value;
      var k :| k in values && !IsMask(values[k]) && values[k] != Get(stored.variables, k);
      assert VariableSent(stored, incoming, k);
    }
  }

  ghost predicate NoMask(v: string)
  {
    v != "[REDACTED]" && v != "***"
  }

  ghost predicate MapMaskFree(m: StringMap)
  {
    m.Some? ==> forall k :: k in m.value ==> NoMask(m.value[k])
  }

  ghost predicate StepMaskFree(s: Step)
  {
    && NoMask(s.target)
    && (s.http.Some? ==>
          && NoMask(s.http.value.body)
          && MapMaskFree(s.http.value.headers) && MapMaskFree(s.http.value.responseHeaders))
    && (s.tcp.Some? ==> NoMask(s.tcp.value.send))
    && (s.udp.Some? ==> NoMask(s.udp.value.sendHex))
  }

  /** A changed journey is accepted exactly when no field of the stored result is a mask. */
  lemma AcceptedChangeIsMaskFree(stored: Journey, incoming: Journey)
    requires Changed(stored, incoming)
    ensures var (result, ok) := Merge(stored, incoming);
            ok <==> MapMaskFree(result.variables)
                    && forall i :: 0 <= i < |result.steps| ==> StepMaskFree(result.steps[i])
  {
    var result := Merge(stored, incoming).0;
    forall i | 0 <= i < |result.steps|
      ensures StepHasMask(result.steps[i]) <==> !StepMaskFree(result.steps[i])
    {
      MaskFreeStep(result.steps[i]);
    }
    MaskFreeMap(result.variables);
  }

  lemma MaskFreeMap(m: StringMap)
    ensures MapHasMask(m) <==> !MapMaskFree(m)
  {
    if m.Some? && !MapMaskFree(m) {
      var k :| k in m.value && !NoMask(m.value[k]);
      assert IsMask(m.value[k]);
    }
  }

  lemma MaskFreeStep(s: Step)
    ensures StepHasMask(s) <==> !StepMaskFree(s)
  {
    if s.http.Some? {
      MaskFreeMap(s.http.value.headers);
      MaskFreeMap(s.http.value.responseHeaders);
    }
  }

  /** Sent values, and stored ones where a placeholder was sent. */
  ghost predicate KeptStep(a: Step, b: Step, r: Step)
  {
    && r.name == b.name && r.kind == b.kind && r.rest == b.rest
    && r.target == (if b.target == "[REDACTED]" then a.target else b.target)
    && (if a.http.Some? && b.http.Some? then r.http.Some? && KeptHttp(a.http.value, b.http.value, r.http.value)
        else r.http == b.http)
    && (if a.tcp.Some? && b.tcp.Some?
        then r.tcp.Some? && Kept(a.tcp.value.send, b.tcp.value.send, r.tcp.value.send)
             && r.tcp.value.rest == b.tcp.value.rest
        else r.tcp == b.tcp)
    && (if a.udp.Some? && b.udp.Some?
        then r.udp.Some? && Kept(a.udp.value.sendHex, b.udp.value.sendHex, r.udp.value.sendHex)
             && r.udp.value.rest == b.udp.value.rest
        else r.udp == b.udp)
  }

  ghost predicate KeptHttp(a: Http, b: Http, r: Http)
  {
    && KeptMap(a.headers, b.headers, r.headers)
    && KeptMap(a.responseHeaders, b.responseHeaders, r.responseHeaders)
    && Kept(a.body, b.body, r.body)
    && (r.verb, r.followRedirects, r.maxRedirects, r.rest) == (b.verb, b.followRedirects, b.maxRedirects, b.rest)
  }

  /** An update that changes no destination is accepted: edits win, and placeholders keep what is stored. */
  lemma UnchangedJourneyKeeps(stored: Journey, incoming: Journey)
    requires !Changed(stored, incoming)
    ensures var (result, ok) := Merge(stored, incoming);
            && ok && |result.steps| == |incoming.steps| == |stored.steps| && result.rest == incoming.rest
            && KeptMap(stored.variables, incoming.variables, result.variables)
            && forall i :: 0 <= i < |result.steps| ==> KeptStep(stored.steps[i], incoming.steps[i], result.steps[i])
  {
    MergeKeepsOrTakes(stored.variables, incoming.variables);
    var result := Merge(stored, incoming).0;
    forall i | 0 <= i < |result.steps|
      ensures KeptStep(stored.steps[i], incoming.steps[i], result.steps[i])
    {
      assert !Moved(stored.steps[i], WithTargets(stored, incoming).steps[i]);
      MergeStepKeeps(stored.steps[i], incoming.steps[i]);
    }
  }

  lemma MergeStepKeeps(a: Step, b: Step)
    requires !Moved(a, RestoreTarget(a, b))
    ensures KeptStep(a, b, MergeStep(a, RestoreTarget(a, b)))
  {
    if a.http.Some? && b.http.Some? {
      MergeKeepsOrTakes(a.http.value.headers, b.http.value.headers);
      MergeKeepsOrTakes(a.http.value.responseHeaders, b.http.value.responseHeaders);
    }
  }

  // Round trip ----------------------------------------------------------

  lemma StepRoundTrip(s: Step, secret: string -> bool)
    ensures var b := RestoreTarget(s, RedactStep(s, secret));
            !Moved(s, b) && MergeStep(s, b) == s
  {
    if s.http.Some? {
      MaskThenMerge(s.http.value.headers);
      MaskThenMerge(s.http.value.responseHeaders);
      RedactedIsPreserved(s.http.value.body);
    }
    if s.tcp.Some? {
      RedactedIsPreserved(s.tcp.value.send);
    }
    if s.udp.Some? {
      RedactedIsPreserved(s.udp.value.sendHex);
    }
  }

  /** Saving the redacted view of any journey unchanged is accepted and restores every field. */
  lemma JourneyRoundTrip(j: Journey, secret: string -> bool)
    ensures Merge(j, Redacted(j, secret)) == (j, true)
  {
    var masked := Redacted(j, secret);
    var targeted := WithTargets(j, masked);
    forall i | 0 <= i < |j.steps|
      ensures !Moved(j.steps[i], targeted.steps[i]) && MergeStep(j.steps[i], targeted.steps[i]) == j.steps[i]
    {
      StepRoundTrip(j.steps[i], secret);
    }
    assert !VariableEdited(j, masked);
    MaskThenMerge(j.variables);
    assert MergedAll(j, targeted).steps == j.steps;
  }

  /** The first pass puts the stored target of step i in place of a mask, changed journey or not. */
  predicate TargetFilled(stored: Journey, incoming: Journey, i: nat)
    requires i < |incoming.steps|
  {
    && i < |stored.steps| && incoming.steps[i].target == MASK
    && stored.steps[i].name == incoming.steps[i].name && stored.steps[i].kind == incoming.steps[i].kind
  }

  /** The step asks for nothing that a changed journey does not give back. */
  predicate StepComplete(stored: Journey, incoming: Journey, i: nat)
    requires i < |incoming.steps|
  {
    && !PayloadHasMask(incoming.steps[i])
    && (IsMask(incoming.steps[i].target) ==>
          TargetFilled(stored, incoming, i) && !IsMask(stored.steps[i].target))
  }

  /**
    A changed journey gets stored targets back exactly for masked targets of
    steps that kept name and type, and nothing else: it is accepted exactly when
    no other mask was sent, and then everything else is as sent.
   */
  lemma ChangedJourneyRestoresTargetsOnly(stored: Journey, incoming: Journey)
    requires Changed(stored, incoming)
    ensures var (result, ok) := Merge(stored, incoming);
            && result.(steps := []) == incoming.(steps := []) && |result.steps| == |incoming.steps|
            && (forall i :: 0 <= i < |result.steps| ==>
                  result.steps[i] == if TargetFilled(stored, incoming, i)
                                     then incoming.steps[i].(target := stored.steps[i].target) else incoming.steps[i])
    ensures Merge(stored, incoming).1 <==>
      !MapHasMask(incoming.variables) && forall i :: 0 <= i < |incoming.steps| ==> StepComplete(stored, incoming, i)
  {
    var result := WithTargets(stored, incoming);
    assert forall i :: 0 <= i < |incoming.steps| ==>
        (StepHasMask(result.steps[i]) <==> !StepComplete(stored, incoming, i));
  }
}

module ChannelRedaction {
  import opened Options
  import opened Secrets

  /** A decoded JSON value; scalar is a number or boolean with its printed form. */
  datatype Any = Null | Text(s: string) | Scalar(text: string) | List(items: seq<Any>) | Dict(entries: map<string, Any>)

  type Config = Option<map<string, Any>>

  // Redaction -----------------------------------------------------------

  /** secretKey: fields and containers whose values are secret wherever they occur. */
  function Redact(v: Any, force: bool, secretKey: string -> bool): Any
  {
    match v
    case Null => Null
    case Text(s) => if force then Text(RedactSecret(s)) else v
    case Scalar(text) => if force && !Blank(text) then Text(MASK) else v
    case List(items) => List(seq(|items|, i requires 0 <= i < |items| => Redact(items[i], force, secretKey)))
    case Dict(entries) => Dict(map k | k in entries :: Redact(entries[k], force || secretKey(k), secretKey))
  }

  function RedactChannelConfig(config: Config, secretKey: string -> bool): map<string, Any>
  {
    match config case None => map[] case Some(entries) => Redact(Dict(entries), true, secretKey).entries
  }

  // Merging -------------------------------------------------------------

  function MergedValue(current: Option<Any>, v: Any): Any
    decreases v
  {
    match v
    case Text(s) => if current.Some? && current.value.Text? then Text(Preserve(current.value.s, s)) else v
    case Dict(entries) =>
      var base := if current.Some? && current.value.Dict? then current.value.entries else map[];
      Dict(map k | k in base.Keys + entries.Keys ::
             if k in entries then MergedValue(if k in base then Some(base[k]) else None, entries[k]) else base[k])
    case _ => v
  }

  /** mergeSecretAnyMap on maps that are present. */
  function MergedDict(existing: map<string, Any>, incoming: map<string, Any>): map<string, Any>
  {
    MergedValue(Some(Dict(existing)), Dict(incoming)).entries
  }

  method MergeSecretAnyMap(existing: Config, incoming: Config) returns (merged: Config)
    ensures merged == MergedConfig(existing, incoming)
    decreases if incoming.Some? then Dict(incoming.value) else Null
  {
    if incoming.None? {
      return existing;
    }
    var base := if existing.Some? then existing.value else map[];
    var entries := incoming.value;
    var result, todo := base, entries.Keys;
    while todo != {}
      invariant todo <= entries.Keys
      invariant result.Keys == base.Keys + (entries.Keys - todo)
      invariant forall k :: k in result ==>
        result[k] == if k in entries && k !in todo then MergedValue(Find(base, k), entries[k]) else base[k]
      decreases todo
    {
      var key :| key in todo;
      var value := entries[key];
      var merged := value;
      match value {
        case Text(s) =>
          if key in base && base[key].Text? {
            merged := Text(Preserve(base[key].s, s));
          }
        case Dict(inner) =>
          var nested := MergeSecretAnyMap(if key in base && base[key].Dict? then Some(base[key].entries) else None,
                                          Some(inner));
          merged := Dict(nested.value);
        case _ =>
      }
      result := result[key := merged];
      todo := todo - {key};
    }
    assert result == MergedDict(base, entries);
    return Some(result);
  }

  function Find(m: map<string, Any>, key: string): Option<Any>
  {
    if key in m then Some(m[key]) else None
  }

  function MergedConfig(existing: Config, incoming: Config): Config
  {
    if incoming.None? then existing
    else Some(MergedDict(if existing.Some? then existing.value else map[], incoming.value))
  }

  // Channels ------------------------------------------------------------

  datatype Channel = Channel(kind: string, config: Config, rest: string)

  function TextAt(config: Config, key: string): Option<string>
  {
    if config.Some? && key in config.value && config.value[key].Text? then Some(config.value[key].s) else None
  }

  predicate DestinationChanged(existing: Config, incoming: Config)
  {
    exists key :: key in {"url", "webhook_url"} && Redirected(TextAt(existing, key), TextAt(incoming, key))
  }

  predicate Redirected(a: Option<string>, b: Option<string>)
  {
    a.Some? && b.Some? && a != b && !IsRedacted(b.value)
  }

  /** A placeholder string, or a map with one directly inside. */
  predicate HasPlaceholder(v: Any)
  {
    match v
    case Text(s) => IsRedacted(s)
    case Dict(inner) => exists k :: k in inner && inner[k].Text? && IsRedacted(inner[k].s)
    case _ => false
  }

  predicate HasRedactedValues(config: Config)
  {
    config.Some? && exists k :: k in config.value && HasPlaceholder(config.value[k])
  }

  /** The channel that is stored, and whether the update was accepted. */
  function MergeChannel(existing: Channel, incoming: Channel): (Channel, bool)
  {
    if existing.kind != incoming.kind then (incoming, true)
    else if DestinationChanged(existing.config, incoming.config) then (incoming, !HasRedactedValues(incoming.config))
    else (incoming.(config := MergedConfig(existing.config, incoming.config)), true)
  }

  method MergeChannelSecrets(existing: Channel, incoming: Channel) returns (result: Channel, ok: bool)
    ensures (result, ok) == MergeChannel(existing, incoming)
  {
    if existing.kind != incoming.kind {
      return incoming, true;
    }
    if DestinationChanged(existing.config, incoming.config) {
      return incoming, !HasRedactedValues(incoming.config);
    }
    var config := MergeSecretAnyMap(existing.config, incoming.config);
    return incoming.(config := config), true;
  }

  // What an update keeps ------------------------------------------------

  /** A placeholder over a stored string keeps it, maps merge key by key, and anything else is taken as sent. */
  ghost predicate KeptValue(stored: Option<Any>, sent: Any, result: Any)
    decreases sent
  {
    match sent
    case Text(s) =>
      if stored.Some? && stored.value.Text? then result.Text? && Kept(stored.value.s, s, result.s) else result == sent
    case Dict(entries) =>
      && result.Dict?
      && (forall k :: k in entries ==>
            k in result.entries
            && KeptValue(if stored.Some? && stored.value.Dict? then Find(stored.value.entries, k) else None,
                         entries[k], result.entries[k]))
      && (stored.Some? && stored.value.Dict? ==>
            forall k :: k in stored.value.entries && k !in entries ==>
              k in result.entries && result.entries[k] == stored.value.entries[k])
      && (forall k :: k in result.entries && k !in entries ==>
            stored.Some? && stored.value.Dict? && k in stored.value.entries)
    case _ => result == sent
  }

  lemma {:induction false} MergedValueKeeps(stored: Option<Any>, sent: Any)
    ensures KeptValue(stored, sent, MergedValue(stored, sent))
    decreases sent
  {
    if sent.Dict? {
      var base := if stored.Some? && stored.value.Dict? then stored.value.entries else map[];
      forall k | k in sent.entries
        ensures KeptValue(Find(base, k), sent.entries[k], MergedValue(Find(base, k), sent.entries[k]))
      {
        MergedValueKeeps(Find(base, k), sent.entries[k]);
      }
    }
  }

  /** A string that is sent over another one under the key, and is no placeholder. */
  predicate Repointed(existing: Config, incoming: Config, key: string)
  {
    && existing.Some? && incoming.Some? && key in existing.value && key in incoming.value
    && existing.value[key].Text? && incoming.value[key].Text?
    && existing.value[key].s != incoming.value[key].s && !IsRedacted(incoming.value[key].s)
  }

  /** No string of the config, or of a map directly inside it, is a placeholder. */
  ghost predicate PlaceholderFree(config: Config)
  {
    config.Some? ==> forall k :: k in config.value ==>
      && (config.value[k].Text? ==> !IsRedacted(config.value[k].s))
      && (config.value[k].Dict? ==> StringsFree(config.value[k].entries))
  }

  ghost predicate StringsFree(entries: map<string, Any>)
  {
    forall k :: k in entries && entries[k].Text? ==> !IsRedacted(entries[k].s)
  }

  /**
    A channel of another type, or one that points elsewhere, keeps no stored
    secret: it is stored as sent, and a placeholder in the latter is refused.
    Otherwise the stored config is kept wherever a placeholder or nothing was sent.
   */
  lemma ChannelUpdateKeeps(existing: Channel, incoming: Channel)
    ensures var (result, ok) := MergeChannel(existing, incoming);
            var repointed := Repointed(existing.config, incoming.config, "url")
                             || Repointed(existing.config, incoming.config, "webhook_url");
            && (existing.kind != incoming.kind || repointed ==> result == incoming)
            && (ok <==> existing.kind != incoming.kind || !repointed || PlaceholderFree(incoming.config))
            && (existing.kind == incoming.kind && !repointed ==>
                  KeptConfig(existing.config, incoming.config, result.config)
                  && result == incoming.(config := result.config))
  {
    DestinationMeans(existing.config, incoming.config);
    PlaceholderFreeMeans(incoming.config);
    if incoming.config.Some? {
      MergedValueKeeps(Some(Dict(if existing.config.Some? then existing.config.value else map[])),
                       Dict(incoming.config.value));
    }
  }

  lemma DestinationMeans(existing: Config, incoming: Config)
    ensures DestinationChanged(existing, incoming) <==>
            Repointed(existing, incoming, "url") || Repointed(existing, incoming, "webhook_url")
  {
    RepointedMeans(existing, incoming, "url");
    RepointedMeans(existing, incoming, "webhook_url");
    if Repointed(existing, incoming, "url") {
      assert Redirected(TextAt(existing, "url"), TextAt(incoming, "url"));
    } else if Repointed(existing, incoming, "webhook_url") {
      assert Redirected(TextAt(existing, "webhook_url"), TextAt(incoming, "webhook_url"));
    }
  }

  lemma RepointedMeans(existing: Config, incoming: Config, key: string)
    ensures Redirected(TextAt(existing, key), TextAt(incoming, key)) <==> Repointed(existing, incoming, key)
  {
  }

  ghost predicate KeptConfig(existing: Config, incoming: Config, result: Config)
  {
    if incoming.None? then result == existing
    else result.Some? && KeptValue(Some(Dict(if existing.Some? then existing.value else map[])),
                                   Dict(incoming.value), Dict(result.value))
  }

  lemma PlaceholderFreeMeans(config: Config)
    ensures HasRedactedValues(config) <==> !PlaceholderFree(config)
  {
    if config.Some? {
      forall k | k in config.value
        ensures HasPlaceholder(config.value[k]) <==>
                || (config.value[k].Text? && IsRedacted(config.value[k].s))
                || (config.value[k].Dict? && !StringsFree(config.value[k].entries))
      {
      }
    }
  }

  // Round trip ----------------------------------------------------------

  /** Redaction would leave the value as it is. */
  predicate Settled(v: Any)
  {
    match v
    case Null => true
    case Text(s) => Blank(s) || s == MASK
    case Scalar(text) => Blank(text)
    case List(items) => forall i :: 0 <= i < |items| ==> Settled(items[i])
    case Dict(entries) => forall k :: k in entries ==> Settled(entries[k])
  }

  /** Numbers, booleans and list items do not come back from a mask; strings, nulls and maps of such do. */
  predicate Restorable(v: Any)
  {
    match v
    case Null => true
    case Text(_) => true
    case Scalar(text) => Blank(text)
    case List(_) => Settled(v)
    case Dict(entries) => forall k :: k in entries ==> Restorable(entries[k])
  }

  /** Every leaf of the config is a string or null. */
  predicate StringLeaves(v: Any)
  {
    match v
    case Null => true
    case Text(_) => true
    case Scalar(_) => false
    case List(_) => false
    case Dict(entries) => forall k :: k in entries ==> StringLeaves(entries[k])
  }

  lemma {:induction false} StringLeavesAreRestorable(v: Any)
    requires StringLeaves(v)
    ensures Restorable(v)
  {
    if v.Dict? {
      forall k | k in v.entries
        ensures Restorable(v.entries[k])
      {
        StringLeavesAreRestorable(v.entries[k]);
      }
    }
  }

  lemma {:induction false} FixedIffSettled(v: Any, secretKey: string -> bool)
    ensures Redact(v, true, secretKey) == v <==> Settled(v)
  {
    match v
    case List(items) =>
      forall i | 0 <= i < |items|
        ensures Redact(items[i], true, secretKey) == items[i] <==> Settled(items[i])
      {
        FixedIffSettled(items[i], secretKey);
      }
      var redacted := Redact(v, true, secretKey).items;
      assert redacted == items <==> forall i :: 0 <= i < |items| ==> redacted[i] == items[i];
    case Dict(entries) =>
      forall k | k in entries
        ensures Redact(entries[k], true, secretKey) == entries[k] <==> Settled(entries[k])
      {
        FixedIffSettled(entries[k], secretKey);
      }
      var redacted := Redact(v, true, secretKey).entries;
      assert redacted.Keys == entries.Keys;
      assert redacted == entries <==> forall k :: k in entries ==> redacted[k] == entries[k];
    case _ =>
  }

  /** A redacted view holds no secret: every leaf is blank or the mask. */
  lemma {:induction false} RedactedIsSettled(v: Any, secretKey: string -> bool)
    ensures Settled(Redact(v, true, secretKey))
  {
    match v
    case List(items) =>
      forall i | 0 <= i < |items|
        ensures Settled(Redact(items[i], true, secretKey))
      {
        RedactedIsSettled(items[i], secretKey);
      }
    case Dict(entries) =>
      forall k | k in entries
        ensures Settled(Redact(entries[k], true, secretKey))
      {
        RedactedIsSettled(entries[k], secretKey);
      }
    case _ =>
  }

  lemma {:induction false} ValueRoundTrip(v: Any, secretKey: string -> bool)
    ensures MergedValue(Some(v), Redact(v, true, secretKey)) == v <==> Restorable(v)
  {
    match v
    case Null =>
    case Text(s) => RedactedIsPreserved(s);
    case Scalar(_) =>
    case List(_) => FixedIffSettled(v, secretKey);
    case Dict(entries) =>
      var masked := Redact(v, true, secretKey);
      var back := MergedValue(Some(v), masked).entries;
      assert back.Keys == entries.Keys;
      forall k | k in entries
        ensures back[k] == entries[k] <==> Restorable(entries[k])
      {
        ValueRoundTrip(entries[k], secretKey);
      }
      assert back == entries <==> forall k :: k in entries ==> back[k] == entries[k];
  }

  lemma RedactedTextAt(config: Config, secretKey: string -> bool, key: string)
    requires TextAt(config, key).Some?
    ensures TextAt(Some(RedactChannelConfig(config, secretKey)), key) == Some(RedactSecret(TextAt(config, key).value))
  {
    var entries := config.value;
    assert RedactChannelConfig(config, secretKey)[key] == Redact(entries[key], true, secretKey);
  }

  lemma NotRedirected(config: Config, secretKey: string -> bool, key: string)
    ensures !Redirected(TextAt(config, key), TextAt(Some(RedactChannelConfig(config, secretKey)), key))
  {
    if TextAt(config, key).Some? {
      RedactedTextAt(config, secretKey, key);
      RedactedIsPreserved(TextAt(config, key).value);
    }
  }

  lemma RedactionKeepsDestination(config: Config, secretKey: string -> bool)
    ensures !DestinationChanged(config, Some(RedactChannelConfig(config, secretKey)))
  {
    NotRedirected(config, secretKey, "url");
    NotRedirected(config, secretKey, "webhook_url");
  }

  lemma ConfigRoundTrip(config: Config, secretKey: string -> bool)
    ensures MergedConfig(config, Some(RedactChannelConfig(config, secretKey))) == config
       <==> config.Some? && Restorable(Dict(config.value))
  {
    if config.Some? {
      ValueRoundTrip(Dict(config.value), secretKey);
    }
  }

  /**
    Saving the redacted view of a channel unchanged is always accepted, and gives
    the stored channel back exactly when its config is present and restorable,
    which it is whenever every leaf is a string or null.
   */
  lemma ChannelRoundTrip(ch: Channel, secretKey: string -> bool)
    ensures var (result, ok) := MergeChannel(ch, ch.(config := Some(RedactChannelConfig(ch.config, secretKey))));
            && ok
            && (result == ch <==> ch.config.Some? && Restorable(Dict(ch.config.value)))
            && (ch.config.Some? && StringLeaves(Dict(ch.config.value)) ==> result == ch)
  {
    RedactionKeepsDestination(ch.config, secretKey);
    ConfigRoundTrip(ch.config, secretKey);
    if ch.config.Some? && StringLeaves(Dict(ch.config.value)) {
      StringLeavesAreRestorable(Dict(ch.config.value));
    }
  }
}
