// Two copies of one configuration file (internal/configsource/pair.go) and the
// page that shows them side by side (web/src/components/SideBySide.tsx).

module ConfigPair {
  import opened Text
  import opened LineDiff
  import Alignment

  const LINE_END: set<char> := {'\r', '\n'}

  // Equal but for how they end.
  predicate SameConfig(a: string, b: string) {
    TrimRight(a, LINE_END) == TrimRight(b, LINE_END)
  }

  datatype ReadError = NotFound | Unreadable(reason: string)
  datatype Reading = Content(text: string) | Failed(error: ReadError)
  datatype State = Match | Differ | MissingInConsul | MissingInGit

  // How the two sides stand on one path, or why that cannot be said.
  datatype Verdict = Stands(state: State) | Error(error: ReadError)

  function Drift(git: Reading, consul: Reading): Verdict {
    if git.Failed? && git.error != NotFound then Error(git.error)
    else if consul.Failed? && consul.error != NotFound then Error(consul.error)
    else if git.Failed? && consul.Failed? then Error(NotFound)
    else if consul.Failed? then Stands(MissingInConsul)
    else if git.Failed? then Stands(MissingInGit)
    else if SameConfig(git.text, consul.text) then Stands(Match)
    else Stands(Differ)
  }

  // Equal but for how they end: with one text in common, and nothing after it in
  // either but line ends.
  lemma SameConfigMeans(a: string, b: string)
    ensures SameConfig(a, b) <==>
      exists text, x, y :: a == text + x && b == text + y && Only(x, LINE_END) && Only(y, LINE_END)
  {
    var x := TrimRightParts(a, LINE_END);
    var y := TrimRightParts(b, LINE_END);
    forall text, x, y | a == text + x && b == text + y && Only(x, LINE_END) && Only(y, LINE_END)
      ensures SameConfig(a, b)
    {
      TrimRightOf(text, x, LINE_END);
      TrimRightOf(text, y, LINE_END);
    }
  }

  // What the badge says, and when: a side is missing only if the other is there, and
  // anything but "not found" on either side is an error.
  lemma BadgeSays(git: Reading, consul: Reading)
    ensures var badge := Drift(git, consul);
      && (badge == Stands(Match) <==> git.Content? && consul.Content? && SameConfig(git.text, consul.text))
      && (badge == Stands(Differ) <==> git.Content? && consul.Content? && !SameConfig(git.text, consul.text))
      && (badge == Stands(MissingInConsul) <==> git.Content? && consul == Failed(NotFound))
      && (badge == Stands(MissingInGit) <==> git == Failed(NotFound) && consul.Content?)
      && (badge == Error(NotFound) <==> git == consul == Failed(NotFound))
      && (forall why :: badge == Error(Unreadable(why)) <==>
            git == Failed(Unreadable(why)) || (consul == Failed(Unreadable(why)) && !(git.Failed? && git.error.Unreadable?)))
  {
  }

  // The lines the page puts side by side.
  function Lines(text: string): seq<string> {
    Split(TrimRight(text, LINE_END), '\n')
  }

  // They are the text up to the line ends it ends in, cut at each newline.
  lemma LinesAreTheText(text: string) returns (ends: string)
    ensures |Lines(text)| > 0 && text == Join(Lines(text), '\n') + ends && Only(ends, {'\r', '\n'})
    ensures forall i :: 0 <= i < |Lines(text)| ==> '\n' !in Lines(text)[i]
    ensures Join(Lines(text), '\n') != "" ==> Join(Lines(text), '\n')[|Join(Lines(text), '\n')| - 1] !in {'\r', '\n'}
  {
    ends := TrimRightParts(text, LINE_END);
    JoinOfSplit(TrimRight(text, LINE_END), '\n');
    SplitIsFree(TrimRight(text, LINE_END), '\n');
    TrimRightEnds(text, LINE_END);
  }

  // The page says "No differences." exactly when the badge above it says the two
  // sides match, for every pair of contents.
  lemma PageAgreesWithBadge(git: string, consul: string)
    ensures Alignment.NoDifferences(AlignRows(Lines(git), Lines(consul)))
        <==> Drift(Content(git), Content(consul)) == Stands(Match)
  {
    Alignment.NoDifferencesMeansEqual(Lines(git), Lines(consul));
    SplitInjective(TrimRight(git, LINE_END), TrimRight(consul, LINE_END), '\n');
  }
}
