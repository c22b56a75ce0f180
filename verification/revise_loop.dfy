/** Live replay with its judge-and-revise loop, and scoring with the cached verdict:
    crates/remo-eval/src/runtime_replayer.rs and crates/remo-eval/src/judge.rs. The agent
    runtime and the judge are arbitrary functions of how often they have been called before. */
module ReviseLoop {
  import opened Wrappers

  datatype JudgeResult = JudgeResult(score: real, reasoning: Option<string>)

  /** The answer of a runtime call, by call number and message, and of a judge call, by call
      number and judged text. */
  datatype World = World(
    run: (nat, string) -> Result<string, string>,
    judge: (nat, string) -> Result<JudgeResult, string>)

  datatype ReviseConfig = ReviseConfig(threshold: real, maxRetries: nat)

  datatype RuntimeFailure = TokenBudgetExceeded | RuntimeError(message: string)

  datatype Outcome = Outcome(
    finalText: string,
    error: Option<string>,
    revisions: nat,
    verdict: Option<JudgeResult>)

  /** The message that asks for a revision; its wording is of no consequence here. */
  function ReviseMessage(text: string, r: JudgeResult): string {
    "Your prior answer was:\n\"" + text + "\"\n"
    + (if r.reasoning.Some? then r.reasoning.value else "(no reasoning given)")
  }

  /** The turns of the dialogue from turn `i` on; the first error ends it. */
  function Dialogue(w: World, inputs: seq<string>, i: nat, text: string): Result<string, string>
    requires i <= |inputs|
    decreases |inputs| - i
  {
    if i == |inputs| then Ok(text)
    else
      match w.run(i, inputs[i])
      case Err(e) => Err(e)
      case Ok(t) => Dialogue(w, inputs, i + 1, t)
  }

  /** Judging and revising from revision `n` on, the next runtime call being number `call + n`. */
  function Revised(w: World, cfg: ReviseConfig, call: nat, text: string, n: nat): Outcome
    requires n <= cfg.maxRetries
    decreases cfg.maxRetries - n
  {
    match w.judge(n, text)
    case Err(_) => Outcome(text, None, n, None)
    case Ok(r) =>
      if r.score >= cfg.threshold || n >= cfg.maxRetries then Outcome(text, None, n, Some(r))
      else
        match w.run(call + n, ReviseMessage(text, r))
        case Err(e) => Outcome("", Some(e), n + 1, None)
        case Ok(t) => Revised(w, cfg, call, t, n + 1)
  }

  function Replayed(w: World, inputs: seq<string>, revise: Option<ReviseConfig>): Outcome {
    match Dialogue(w, inputs, 0, "")
    case Err(e) => Outcome("", Some(e), 0, None)
    case Ok(t) => if revise.None? then Outcome(t, None, 0, None) else Revised(w, revise.value, |inputs|, t, 0)
  }

  // ---- What a replay went through ----------------------------------------------------------

  /** Text by text, from revision `n` on: each but the last was judged below the threshold, and the
      next is the runtime's answer to the message made of it and of that verdict. */
  ghost predicate Revises(w: World, cfg: ReviseConfig, call: nat, n: nat, texts: seq<string>) {
    forall k :: 0 <= k < |texts| - 1 ==> RevisedTo(w, cfg, call, n + k, texts[k], texts[k + 1])
  }

  ghost predicate RevisedTo(w: World, cfg: ReviseConfig, call: nat, n: nat, text: string, next: string) {
    && w.judge(n, text).Ok? && w.judge(n, text).value.score < cfg.threshold && n < cfg.maxRetries
    && w.run(call + n, ReviseMessage(text, w.judge(n, text).value)) == Ok(next)
  }

  /** How the loop ends with `text` as revision `r`: with its verdict when that reaches the
      threshold or the retries are used up, without one when the judge fails, and with an error
      and neither text nor verdict when the runtime fails to revise it. */
  ghost predicate EndsAt(w: World, cfg: ReviseConfig, call: nat, r: nat, text: string, o: Outcome) {
    match w.judge(r, text)
    case Err(_) => o == Outcome(text, None, r, None)
    case Ok(j) =>
      if j.score >= cfg.threshold || r == cfg.maxRetries then o == Outcome(text, None, r, Some(j))
      else
        match w.run(call + r, ReviseMessage(text, j))
        case Ok(_) => false
        case Err(e) => o == Outcome("", Some(e), r + 1, None)
  }

  ghost predicate Went(w: World, cfg: ReviseConfig, call: nat, n: nat, texts: seq<string>, o: Outcome) {
    texts != [] && Revises(w, cfg, call, n, texts) && n + |texts| - 1 <= cfg.maxRetries
    && EndsAt(w, cfg, call, n + |texts| - 1, texts[|texts| - 1], o)
  }

  lemma {:induction false} RevisedWent(w: World, cfg: ReviseConfig, call: nat, text: string, n: nat)
    returns (texts: seq<string>)
    requires n <= cfg.maxRetries
    ensures Went(w, cfg, call, n, texts, Revised(w, cfg, call, text, n)) && texts[0] == text
    decreases cfg.maxRetries - n
  {
    texts := [text];
    if w.judge(n, text).Ok? && w.judge(n, text).value.score < cfg.threshold && n < cfg.maxRetries {
      match w.run(call + n, ReviseMessage(text, w.judge(n, text).value)) {
        case Err(_) =>
        case Ok(t) =>
          var rest := RevisedWent(w, cfg, call, t, n + 1);
          texts := [text] + rest;
          forall k | 0 <= k < |texts| - 1 ensures RevisedTo(w, cfg, call, n + k, texts[k], texts[k + 1]) {
            if k > 0 { assert RevisedTo(w, cfg, call, n + 1 + (k - 1), rest[k - 1], rest[k]); }
          }
      }
    }
  }

  /** A completed dialogue is followed by texts, its last answer first, each revised for a verdict
      below the threshold, down to the one with which the loop ends. */
  lemma ReplayWent(w: World, inputs: seq<string>, cfg: ReviseConfig)
    requires Dialogue(w, inputs, 0, "").Ok?
    ensures exists texts :: Went(w, cfg, |inputs|, 0, texts, Replayed(w, inputs, Some(cfg)))
                            && texts[0] == Dialogue(w, inputs, 0, "").value
  {
    hide Revised, Went;
    var texts := RevisedWent(w, cfg, |inputs|, Dialogue(w, inputs, 0, "").value, 0);
  }

  /** A first verdict that reaches the threshold ends the loop at once. */
  lemma AcceptedAtOnce(w: World, inputs: seq<string>, cfg: ReviseConfig)
    requires Dialogue(w, inputs, 0, "").Ok?
    ensures var t, o := Dialogue(w, inputs, 0, "").value, Replayed(w, inputs, Some(cfg));
            && (w.judge(0, t).Ok? && w.judge(0, t).value.score >= cfg.threshold ==>
                  o == Outcome(t, None, 0, Some(w.judge(0, t).value)))
            && (o.revisions == 0 <==>
                  cfg.maxRetries == 0 || w.judge(0, t).Err? || w.judge(0, t).value.score >= cfg.threshold)
  {
    var t := Dialogue(w, inputs, 0, "").value;
    RevisedIsSound(w, cfg, |inputs|, t, 0);
    if w.judge(0, t).Ok? && w.judge(0, t).value.score < cfg.threshold && cfg.maxRetries > 0 {
      match w.run(|inputs|, ReviseMessage(t, w.judge(0, t).value)) {
        case Err(_) =>
        case Ok(next) => RevisedIsSound(w, cfg, |inputs|, next, 1);
      }
    }
  }

  /** The dialogue's text is the answer to its last turn, and its error the first one met. */
  lemma {:induction false} DialogueIs(w: World, inputs: seq<string>, i: nat, text: string)
    requires i <= |inputs|
    ensures Dialogue(w, inputs, i, text).Ok? <==> forall k :: i <= k < |inputs| ==> w.run(k, inputs[k]).Ok?
    ensures Dialogue(w, inputs, i, text).Ok? ==>
              Dialogue(w, inputs, i, text) == if i == |inputs| then Ok(text) else w.run(|inputs| - 1, inputs[|inputs| - 1])
    ensures Dialogue(w, inputs, i, text).Err? ==>
              exists k :: i <= k < |inputs| && w.run(k, inputs[k]) == Dialogue(w, inputs, i, text)
                          && forall j :: i <= j < k ==> w.run(j, inputs[j]).Ok?
    decreases |inputs| - i
  {
    if i == |inputs| {
    } else if w.run(i, inputs[i]).Ok? {
      DialogueIs(w, inputs, i + 1, w.run(i, inputs[i]).value);
    }
  }

  /** The message quotes the answer and ends with the reasons given. */
  lemma MessageTells(text: string, r: JudgeResult) returns (at: nat)
    ensures at + |text| <= |ReviseMessage(text, r)| && ReviseMessage(text, r)[at..at + |text|] == text
    ensures r.reasoning.Some? ==>
              var m, reasons := ReviseMessage(text, r), r.reasoning.value;
              |reasons| <= |m| && m[|m| - |reasons|..] == reasons
  {
    var head := "Your prior answer was:\n\"";
    var m := ReviseMessage(text, r);
    at := |head|;
    assert m[at..at + |text|] == text;
  }

  method ReplayLive(
      w: World, inputs: seq<string>, revise: Option<ReviseConfig>, maxTotalTokens: Option<nat>, totalTokens: nat)
    returns (o: Outcome, failure: Option<RuntimeFailure>)
    ensures o == Replayed(w, inputs, revise)
    ensures failure.None? <==> o.error.None? && (maxTotalTokens.Some? ==> totalTokens <= maxTotalTokens.value)
    ensures failure.Some? && failure.value.RuntimeError? ==> o.error == Some(failure.value.message)
    ensures failure == Some(TokenBudgetExceeded) <==> maxTotalTokens.Some? && totalTokens > maxTotalTokens.value
    ensures revise.Some? && (forall k :: 0 <= k < |inputs| ==> w.run(k, inputs[k]).Ok?) ==>
              exists texts ::
                && Went(w, revise.value, |inputs|, 0, texts, o)
                && texts[0] == if inputs == [] then "" else w.run(|inputs| - 1, inputs[|inputs| - 1]).value
  {
    hide Went;
    DialogueIs(w, inputs, 0, "");
    if revise.Some? && Dialogue(w, inputs, 0, "").Ok? { ReplayWent(w, inputs, revise.value); }
    var finalText, lastError, dialogueOk := "", None, true;
    var i := 0;
    while i < |inputs|
      invariant i <= |inputs| && lastError.None?
      invariant Dialogue(w, inputs, 0, "") == Dialogue(w, inputs, i, finalText)
    {
      match w.run(i, inputs[i]) {
        case Ok(response) =>
          finalText := response;
        case Err(e) =>
          finalText := "";
          lastError := Some(e);
          dialogueOk := false;
          break;
      }
      i := i + 1;
    }

    var revisions, verdict := 0, None;
    if revise.Some? && dialogueOk {
      var cfg := revise.value;
      ghost var first := finalText;
      for k := 0 to cfg.maxRetries + 1
        invariant k <= cfg.maxRetries ==> revisions == k && lastError.None? && verdict.None?
        invariant k <= cfg.maxRetries ==>
            Revised(w, cfg, |inputs|, first, 0) == Revised(w, cfg, |inputs|, finalText, k)
        invariant k == cfg.maxRetries + 1 ==>
            Revised(w, cfg, |inputs|, first, 0) == Outcome(finalText, lastError, revisions, verdict)
      {
        match w.judge(k, finalText) {
          case Err(_) =>
            break;
          case Ok(r) =>
            verdict := Some(r);
            if r.score >= cfg.threshold { break; }
            if revisions >= cfg.maxRetries { break; }
            var message := ReviseMessage(finalText, r);
            revisions := revisions + 1;
            match w.run(|inputs| + k, message) {
              case Ok(response) =>
                finalText := response;
                lastError := None;
                verdict := None;
              case Err(e) =>
                lastError := Some(e);
                finalText := "";
                verdict := None;
                break;
            }
        }
      }
    }
    o := Outcome(finalText, lastError, revisions, verdict);
    failure :=
      if maxTotalTokens.Some? && totalTokens > maxTotalTokens.value then Some(TokenBudgetExceeded)
      else if lastError.Some? then Some(RuntimeError(lastError.value))
      else None;
  }

  /** What holds of an outcome whatever the judge and the runtime answer: a kept verdict is the
      judge's answer to exactly the text kept with it, an answer below the threshold is kept only
      when the retries are used up, and an error leaves neither text nor verdict. */
  ghost predicate Sound(w: World, cfg: ReviseConfig, o: Outcome) {
    && o.revisions <= cfg.maxRetries
    && (o.verdict.Some? ==> w.judge(o.revisions, o.finalText) == Ok(o.verdict.value))
    && (o.verdict.Some? && o.verdict.value.score < cfg.threshold ==> o.revisions == cfg.maxRetries)
    && (o.error.Some? ==> o.finalText == "" && o.verdict.None?)
    && (o.error.None? && o.verdict.None? ==> w.judge(o.revisions, o.finalText).Err?)
  }

  lemma {:induction false} RevisedIsSound(w: World, cfg: ReviseConfig, call: nat, text: string, n: nat)
    requires n <= cfg.maxRetries
    ensures Sound(w, cfg, Revised(w, cfg, call, text, n))
    ensures n <= Revised(w, cfg, call, text, n).revisions
    decreases cfg.maxRetries - n
  {
    match w.judge(n, text) {
      case Err(_) =>
      case Ok(r) =>
        if r.score < cfg.threshold && n < cfg.maxRetries {
          match w.run(call + n, ReviseMessage(text, r)) {
            case Err(_) =>
            case Ok(t) => RevisedIsSound(w, cfg, call, t, n + 1);
          }
        }
    }
  }

  lemma {:induction false} ReplayedIsSound(w: World, inputs: seq<string>, cfg: ReviseConfig)
    ensures Sound(w, cfg, Replayed(w, inputs, Some(cfg))) || Dialogue(w, inputs, 0, "").Err?
    ensures Dialogue(w, inputs, 0, "").Err? ==>
              Replayed(w, inputs, Some(cfg)) == Outcome("", Some(Dialogue(w, inputs, 0, "").error), 0, None)
  {
    if Dialogue(w, inputs, 0, "").Ok? {
      RevisedIsSound(w, cfg, |inputs|, Dialogue(w, inputs, 0, "").value, 0);
    }
  }

  // ---- Scoring with the cached verdict -----------------------------------------------------

  datatype Failure = Other(kind: string) | JudgeBelowThreshold(threshold: real, actual: real)

  /** `fresh` answers the judge call that is made only when no verdict is cached. */
  method ScoreWithJudge(
      o: Outcome, checks: seq<Failure>, minJudgeScore: Option<real>, ask: string -> Result<JudgeResult, string>)
    returns (r: Result<(seq<Failure>, Option<JudgeResult>), string>)
    ensures minJudgeScore.None? ==> r == Ok((checks, None))
    ensures minJudgeScore.Some? ==>
              var verdict := if o.verdict.Some? then Ok(o.verdict.value) else ask(o.finalText);
              match verdict
              case Err(e) => r == Err(e)
              case Ok(j) =>
                r == Ok((if j.score < minJudgeScore.value
                         then checks + [JudgeBelowThreshold(minJudgeScore.value, j.score)] else checks,
                         Some(j)))
  {
    var failures := checks;
    if minJudgeScore.None? { return Ok((failures, None)); }
    var result;
    if o.verdict.Some? {
      result := o.verdict.value;
    } else {
      var answer := ask(o.finalText);
      if answer.Err? { return Err(answer.error); }
      result := answer.value;
    }
    if result.score < minJudgeScore.value {
      failures := failures + [JudgeBelowThreshold(minJudgeScore.value, result.score)];
    }
    r := Ok((failures, Some(result)));
  }

  /** The verdict scoring uses is one the judge gave for the very text that is reported: the
      cached one from the revise loop, or a new one when the loop kept none. */
  lemma CachedVerdictIsForThisText(w: World, inputs: seq<string>, revise: Option<ReviseConfig>)
    ensures var o := Replayed(w, inputs, revise);
            o.verdict.Some? ==> w.judge(o.revisions, o.finalText) == Ok(o.verdict.value) && o.error.None?
  {
    if revise.Some? { ReplayedIsSound(w, inputs, revise.value); }
  }

  /** A replay scored by the judge that its revise loop used, whose next call would be number
      `call`. Whatever the judge answers, the verdict that decides is one it gave for the text that
      is reported; the judge is asked again only when the loop kept no verdict, and then only its
      failing to answer is an error. With a kept verdict below the loop's threshold the retries
      are used up. */
  method JudgedReplay(
      w: World, inputs: seq<string>, revise: Option<ReviseConfig>, checks: seq<Failure>,
      minJudgeScore: real, call: nat)
    returns (o: Outcome, r: Result<(seq<Failure>, Option<JudgeResult>), string>)
    ensures o == Replayed(w, inputs, revise)
    ensures var answer := w.judge(if o.verdict.Some? then o.revisions else call, o.finalText);
            match answer
            case Err(e) => r == Err(e)
            case Ok(j) => r.Ok? && r.value.1 == Some(j) &&
                          (j.score >= minJudgeScore ==> r.value.0 == checks) &&
                          (j.score < minJudgeScore ==>
                             r.value.0 == checks + [JudgeBelowThreshold(minJudgeScore, j.score)])
    ensures r.Err? ==> o.verdict.None?
    ensures r.Ok? && o.verdict.Some? ==> revise.Some?
    ensures r.Ok? && o.verdict.Some? && o.verdict.value.score < revise.value.threshold ==>
              o.revisions == revise.value.maxRetries
  {
    var failure;
    o, failure := ReplayLive(w, inputs, revise, None, 0);
    CachedVerdictIsForThisText(w, inputs, revise);
    if revise.Some? { ReplayedIsSound(w, inputs, revise.value); }
    r := ScoreWithJudge(o, checks, Some(minJudgeScore), t => w.judge(call, t));
  }
}
