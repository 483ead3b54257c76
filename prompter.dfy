/** The question flow of `prompter` (index.js:22-112): the subject filter that
    the prompt applies while collecting, and the completion handler that hands
    the message to the host's `commit` callback or cancels. */
module Prompter {
  import opened Wrappers
  import opened JsString
  import opened ChangeType
  import opened Subject
  import opened Formatter

  /** The choices of the last question: display name and value. */
  const ConfirmChoices: seq<(string, string)> := [("Yes", "yes"), ("Abort commit", "no")]

  const CreatedNotice := "Commit has been created."
  const CanceledNotice := "Commit has been canceled."

  /** The answers as the handler receives them: the prompt has run the
      subject's filter over the typed text; every other answer is kept as typed. */
  function Collect(typed: Answers): Answers {
    typed.(subject := SubjectFilter(typed.subject))
  }

  /** The completion handler's decision: the message to commit, or `None`
      when the commit is cancelled. */
  function OnComplete(a: Answers, wrap: string -> string): (r: Option<string>)
    ensures r.Some? <==> a.confirmCommit == "yes"
    ensures r.Some? ==> r.value == BuildCommit(a, wrap)
  {
    if a.confirmCommit == "yes" then Some(BuildCommit(a, wrap)) else None
  }

  /** What a decision hands to the `commit` callback: one message or none. */
  function Committed(d: Option<string>): seq<string> {
    match d
    case Some(m) => [m]
    case None => []
  }

  /** Of the two values the confirmation list offers, only the first commits. */
  lemma ConfirmChoiceDispatch(a: Answers, wrap: string -> string, i: nat)
    requires i < |ConfirmChoices|
    ensures OnComplete(a.(confirmCommit := ConfirmChoices[i].1), wrap).Some? <==> i == 0
  {
  }

  /** One run of the prompter as seen by the host: the messages passed to its
      `commit` callback and the status lines written to the terminal. */
  class Session {
    var commits: seq<string>
    var output: seq<string>

    constructor ()
      ensures commits == [] && output == []
    {
      commits := [];
      output := [];
    }

    /** The completion handler of index.js:104-111. */
    method Complete(a: Answers, wrap: string -> string)
      modifies this
      ensures commits == old(commits) + Committed(OnComplete(a, wrap))
      ensures a.confirmCommit == "yes" ==>
        commits == old(commits) + [BuildCommit(a, wrap)] && output == old(output) + [CreatedNotice]
      ensures a.confirmCommit != "yes" ==>
        commits == old(commits) && output == old(output) + [CanceledNotice]
    {
      if a.confirmCommit == "yes" {
        commits := commits + [BuildCommit(a, wrap)];
        output := output + [CreatedNotice];
      } else {
        output := output + [CanceledNotice];
      }
    }

    /** The prompt collects the typed answers (filtering the subject) and
      then runs the completion handler. */
    method Run(typed: Answers, wrap: string -> string)
      modifies this
      ensures commits == old(commits) + Committed(OnComplete(Collect(typed), wrap))
      ensures output == old(output) + [if typed.confirmCommit == "yes" then CreatedNotice else CanceledNotice]
    {
      Complete(Collect(typed), wrap);
    }
  }

  lemma DryRunSubject()
    ensures SubjectFilter("Add dry-run flag.") == "add dry-run flag"
  {
  }

  /** What the message looks like once its head is known. */
  lemma MessageStartsWith(a: Answers, wrap: string -> string, h: string)
    requires '\n' !in a.scope && '\n' !in a.subject
    requires Head(a) == h
    ensures var m := BuildCommit(a, wrap);
      m[..IndexOf(m, '\n')] == h && m[..|h| + 2] == h + "\n\n"
  {
    FirstLineIsHead(a, wrap);
  }

  /** The expected head, written as its pieces. */
  const DryRunHeadLine := "feat" + "(" + "cli" + ")" + ": " + "add dry-run flag"

  lemma DryRunHead(a: Answers)
    requires a.changeType == Feat && a.scope == "cli" && a.subject == "add dry-run flag"
    ensures Head(a) == DryRunHeadLine
  {
    TrimBare("cli");
    TrimBare("add dry-run flag");
    assert FullHead(a) == DryRunHeadLine;
  }

  /** The end-to-end example: type feat, scope `cli`, subject typed as
      `Add dry-run flag.`, confirmed. The host receives one message whose
      first line is `feat(cli): add dry-run flag`, followed by a blank line,
      and which ends with a blank line and the wrapped footer. */
  lemma DryRunExample(typed: Answers, wrap: string -> string)
    requires typed.changeType == Feat && typed.scope == "cli"
    requires typed.subject == "Add dry-run flag." && typed.confirmCommit == "yes"
    ensures var d := OnComplete(Collect(typed), wrap);
      d.Some? &&
      d.value[..IndexOf(d.value, '\n')] == DryRunHeadLine &&
      d.value[..|DryRunHeadLine| + 2] == DryRunHeadLine + "\n\n" &&
      d.value[|d.value| - |wrap(typed.footer)| - 2..] == "\n\n" + wrap(typed.footer)
  {
    DryRunSubject();
    var a := Collect(typed);
    DryRunHead(a);
    MessageStartsWith(a, wrap, DryRunHeadLine);
  }

  /** The same answers with the abort choice: nothing reaches the host. */
  lemma AbortExample(typed: Answers, wrap: string -> string)
    requires typed.changeType == Feat && typed.scope == "cli"
    requires typed.subject == "Add dry-run flag." && typed.confirmCommit == "no"
    ensures OnComplete(Collect(typed), wrap) == None
  {
  }

  /** A client of `Session`: a cancelled run leaves the callback untouched,
      a confirmed one calls it exactly once. */
  method SessionExample(wrap: string -> string)
  {
    var s := new Session();
    s.Run(Answers(Fix, "", "Typo.", "", "", "no"), wrap);
    assert s.commits == [] && s.output == [CanceledNotice];
    s.Run(Answers(Fix, "", "Typo.", "", "", "yes"), wrap);
    assert |s.commits| == 1;
    assert s.output == [CanceledNotice, CreatedNotice];
  }
}
