/** The fixed list of change types offered by the first question
    (index.js:38-63): each choice has a display name and a tag value, and the
    tag is what ends up at the start of the commit head. */
module ChangeType {
  import opened Wrappers

  datatype Type = Feat | Fix | Docs | Style | Refactor | Perf | Test | Chore

  /** The choice order of the list question. */
  const Choices: seq<Type> := [Feat, Fix, Docs, Style, Refactor, Perf, Test, Chore]

  predicate IsLowerLetter(c: char) {
    'a' <= c <= 'z'
  }

  /** The `value` of a choice: a short lower-case word. */
  function Tag(t: Type): (r: string)
    ensures 3 <= |r| <= 8
    ensures forall k :: 0 <= k < |r| ==> IsLowerLetter(r[k])
  {
    match t
    case Feat => "feat"
    case Fix => "fix"
    case Docs => "docs"
    case Style => "style"
    case Refactor => "refactor"
    case Perf => "perf"
    case Test => "test"
    case Chore => "chore"
  }

  /** The `name` of a choice, as the list shows it: the tag, a colon, then a
      padded description (written here in two pieces). */
  function ChoiceName(t: Type): string {
    match t
    case Feat => "feat:" + "     A new feature"
    case Fix => "fix:" + "      A bug fix"
    case Docs => "docs:" + "     Documentation only changes"
    case Style => "style:" + "    Changes that do not affect the meaning of the code\n"
                           + "            (white-space, formatting, missing semi-colons, etc)"
    case Refactor => "refactor:" + " A code change that neither fixes a bug or adds a feature"
    case Perf => "perf:" + "     A code change that improves performance"
    case Test => "test:" + "     Adding missing tests"
    case Chore => "chore:" + "    Changes to the build process or auxiliary tools\n"
                           + "            and libraries such as documentation generation"
  }

  /** Each display name starts with its tag and a colon. */
  lemma ChoiceNameShowsTag(t: Type)
    ensures Tag(t) + ":" <= ChoiceName(t)
  {
  }

  /** Reads a tag back to its change type. */
  function FromTag(s: string): (r: Option<Type>)
    ensures r.Some? ==> Tag(r.value) == s
  {
    if s == "feat" then Some(Feat)
    else if s == "fix" then Some(Fix)
    else if s == "docs" then Some(Docs)
    else if s == "style" then Some(Style)
    else if s == "refactor" then Some(Refactor)
    else if s == "perf" then Some(Perf)
    else if s == "test" then Some(Test)
    else if s == "chore" then Some(Chore)
    else None
  }

  /** Every tag reads back to its own type, so no two choices share a value. */
  lemma FromTagTag(t: Type)
    ensures FromTag(Tag(t)) == Some(t)
  {
  }

  lemma TagInjective(t: Type, u: Type)
    ensures Tag(t) == Tag(u) <==> t == u
  {
    FromTagTag(t);
    FromTagTag(u);
  }

  /** Every change type is offered, exactly once. */
  lemma ChoicesComplete(t: Type)
    ensures t in Choices
    ensures forall i, j :: 0 <= i < j < |Choices| ==> Choices[i] != Choices[j]
  {
  }
}
