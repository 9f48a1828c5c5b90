// Which pipeline built an image, told from its reference (internal/gitlab/image.go).

module ImageReference {
  import opened Prelude
  import opened Text
  import opened ConfigPath

  datatype ImageRef = ImageRef(projectPath: string, environment: string, pipeline: int)

  datatype ParseError = NotAReference | NoTag | NoProject | EmptyProject | ShortTag | UnknownEnvironment | NoPipeline

  datatype Parsed = Ok(ref: ImageRef) | Bad(error: ParseError)

  // ---- Characters in strings ----

  function IndexOf(s: string, c: char): int {
    if s == "" then -1
    else if s[0] == c then 0
    else
      var i := IndexOf(s[1..], c);
      if i < 0 then -1 else i + 1
  }

  function LastIndexOf(s: string, c: char): int {
    if s == "" then -1 else if s[|s| - 1] == c then |s| - 1 else LastIndexOf(s[..|s| - 1], c)
  }

  lemma {:induction false} IndexFinds(s: string, c: char)
    ensures var i := IndexOf(s, c);
      if c in s then 0 <= i < |s| && s[i] == c && c !in s[..i] else i == -1
  {
    if s != "" && s[0] != c {
      IndexFinds(s[1..], c);
      var i := IndexOf(s, c);
      if i > 0 { assert s[..i] == [s[0]] + s[1..][..i - 1]; }
    }
  }

  lemma {:induction false} LastIndexFinds(s: string, c: char)
    ensures var i := LastIndexOf(s, c);
      if c in s then 0 <= i < |s| && s[i] == c && c !in s[i + 1..] else i == -1
  {
    if s != "" && s[|s| - 1] != c {
      var n := |s| - 1;
      LastIndexFinds(s[..n], c);
      assert s == s[..n] + [s[n]];
      var i := LastIndexOf(s, c);
      if i >= 0 { assert s[i + 1..] == s[..n][i + 1..] + [s[n]]; }
    }
  }

  lemma {:induction false} IndexIs(head: string, c: char, tail: string)
    requires c !in head
    ensures IndexOf(head + [c] + tail, c) == |head|
  {
    if head != "" {
      assert (head + [c] + tail)[1..] == head[1..] + [c] + tail;
      IndexIs(head[1..], c, tail);
    }
  }

  lemma {:induction false} LastIndexIs(head: string, c: char, tail: string)
    requires c !in tail
    ensures LastIndexOf(head + [c] + tail, c) == |head|
  {
    var s, n := head + [c] + tail, |tail| - 1;
    if tail != "" {
      assert s[..|s| - 1] == head + [c] + tail[..n];
      assert s[|s| - 1] == tail[n];
      LastIndexIs(head, c, tail[..n]);
    }
  }

  // ---- Numbers ----

  const MAX_INT: int := 0x7fff_ffff_ffff_ffff

  predicate Digit(c: char) { '0' <= c <= '9' }

  function ValueOf(c: char): (n: nat)
    requires Digit(c)
    ensures n < 10
  {
    c as int - '0' as int
  }

  predicate AllDigits(s: string) { forall i :: 0 <= i < |s| ==> Digit(s[i]) }

  function Digits(s: string): (n: nat)
    requires AllDigits(s)
  {
    if s == "" then 0 else Digits(s[..|s| - 1]) * 10 + ValueOf(s[|s| - 1])
  }

  // strconv.Atoi: digits with an optional sign, within 64 bits.
  function Atoi(s: string): Option<int> {
    var body := if s != "" && (s[0] == '-' || s[0] == '+') then s[1..] else s;
    if body == "" || !AllDigits(body) then None
    else
      var n: int := if s[0] == '-' then 0 - Digits(body) else Digits(body);
      if -MAX_INT - 1 <= n <= MAX_INT then Some(n) else None
  }

  function Itoa(n: nat): (s: string)
    ensures s != "" && AllDigits(s)
  {
    if n < 10 then [('0' as int + n) as char] else Itoa(n / 10) + [('0' as int + n % 10) as char]
  }

  lemma {:induction false} AtoiOfItoa(n: nat)
    ensures Digits(Itoa(n)) == n
    ensures n <= MAX_INT ==> Atoi(Itoa(n)) == Some(n)
  {
    if n >= 10 {
      AtoiOfItoa(n / 10);
      var s := Itoa(n);
      assert s[..|s| - 1] == Itoa(n / 10);
    }
  }

  // A number is read from digits after at most one sign, and only within 64 bits.
  lemma AtoiReads(s: string, n: int)
    ensures Atoi(s) == Some(n) <==>
      && -0x8000_0000_0000_0000 <= n <= 0x7fff_ffff_ffff_ffff
      && exists sign, digits :: Written(s, sign, digits) && n == if sign == "-" then 0 - Digits(digits) else Digits(digits)
  {
    var signed := s != "" && (s[0] == '-' || s[0] == '+');
    var sign, body := if signed then s[..1] else "", if signed then s[1..] else s;
    assert s == sign + body;
    assert signed ==> sign == [s[0]];
    assert sign in {"", "-", "+"} && (sign == "-" <==> s != "" && s[0] == '-');
    assert Written(s, sign, body) <==> body != "" && AllDigits(body);
    forall sign', digits | Written(s, sign', digits) ensures sign' == sign && digits == body {
      assert s == sign' + digits && Digit(digits[0]);
      assert sign' == "" || sign' == [s[0]];
      if sign' == "" { assert s[0] == digits[0]; }
    }
  }

  ghost predicate Written(s: string, sign: string, digits: string) {
    s == sign + digits && sign in {"", "-", "+"} && digits != "" && AllDigits(digits)
  }

  // Leading zeros say nothing.
  lemma {:induction false} LeadingZeros(s: string)
    requires AllDigits(s)
    ensures Digits("0" + s) == Digits(s)
  {
    if s != "" {
      var n := |s| - 1;
      assert ("0" + s)[..n + 1] == "0" + s[..n];
      LeadingZeros(s[..n]);
    }
  }

  // ---- Parsing ----

  predicate LooksLikeHost(segment: string) { '.' in segment || ':' in segment }

  function ParseTag(projectPath: string, tag: string, environments: seq<string>): Parsed {
    var parts := Split(tag, '-');
    if |parts| < 2 then Bad(ShortTag)
    else if parts[0] !in environments then Bad(UnknownEnvironment)
    else
      var pipeline := Atoi(parts[|parts| - 1]);
      if pipeline.None? then Bad(NoPipeline) else Ok(ImageRef(projectPath, parts[0], pipeline.value))
  }

  datatype Cut = Parts(repo: string, tag: string) | NoCut(error: ParseError)

  // The tag is after the last colon that follows the last slash; a colon before
  // that belongs to a registry port.
  function CutTag(image: string): Cut {
    var lastSlash := LastIndexOf(image, '/');
    if lastSlash < 0 then NoCut(NotAReference)
    else
      LastIndexFinds(image, '/');
      var colon := LastIndexOf(image[lastSlash..], ':');
      if colon < 0 then NoCut(NoTag)
      else
        LastIndexFinds(image[lastSlash..], ':');
        Parts(image[..lastSlash + colon], image[lastSlash + colon + 1..])
  }

  // The first segment is a registry if it looks like a host.
  function Project(repo: string): Option<string> {
    var i := IndexOf(repo, '/');
    if i <= 0 then None
    else
      IndexFinds(repo, '/');
      Some(if LooksLikeHost(repo[..i]) then repo[i + 1..] else repo)
  }

  function ParseImage(image: string, environments: seq<string>): Parsed {
    match CutTag(image)
    case NoCut(error) => Bad(error)
    case Parts(repo, tag) =>
      var projectPath := Project(repo);
      if projectPath.None? then Bad(NoProject)
      else if projectPath.value == "" then Bad(EmptyProject)
      else ParseTag(projectPath.value, tag, environments)
  }

  // ---- What a successful parse means ----

  function Host(registry: Option<string>): string {
    if registry.Some? then registry.value + "/" else ""
  }

  predicate Plain(s: string) { '/' !in s && ':' !in s }

  // A tag that starts with a configured environment and ends with the number.
  predicate TagReads(tag: string, environments: seq<string>, environment: string, pipeline: int) {
    var parts := Split(tag, '-');
    && |parts| >= 2 && parts[0] == environment && environment in environments
    && Atoi(parts[|parts| - 1]) == Some(pipeline)
  }

  // The first segment is a registry exactly if it looks like a host.
  predicate Placed(registry: Option<string>, projectPath: string) {
    if registry.Some? then ('.' in registry.value || ':' in registry.value) && '/' !in registry.value && projectPath != ""
    else
      var segments := Split(projectPath, '/');
      |segments| >= 2 && segments[0] != "" && '.' !in segments[0] && ':' !in segments[0]
  }

  // The image is an optional registry, the project path and a tag.
  predicate Reads(image: string, environments: seq<string>, registry: Option<string>, tag: string, ref: ImageRef) {
    && image == Host(registry) + ref.projectPath + ":" + tag
    && Plain(tag) && Placed(registry, ref.projectPath)
    && TagReads(tag, environments, ref.environment, ref.pipeline)
  }

  lemma FirstSegment(s: string)
    ensures var i, segments := IndexOf(s, '/'), Split(s, '/');
      if i < 0 then segments == [s] else i < |s| && |segments| >= 2 && segments[0] == s[..i]
  {
    IndexFinds(s, '/');
    var i := IndexOf(s, '/');
    if i < 0 {
      SplitOfFree(s, '/');
    } else {
      assert s == s[..i] + ['/'] + s[i + 1..];
      SplitAtFirst(s[..i], s[i + 1..], '/');
    }
  }

  lemma Halves<T>(a: seq<T>, b: seq<T>)
    ensures (a + b)[..|a|] == a && (a + b)[|a|..] == b
  {
  }

  lemma CutIs(repo: string, tag: string)
    requires '/' in repo && Plain(tag)
    ensures CutTag(repo + ":" + tag) == Parts(repo, tag)
  {
    LastIndexFinds(repo, '/');
    var k := LastIndexOf(repo, '/');
    CutAt(repo[..k], repo[k + 1..], tag, repo + ":" + tag);
    assert repo == repo[..k] + "/" + repo[k + 1..];
  }

  lemma SlashAt(head: string, last: string, tag: string, image: string)
    requires Plain(tag) && '/' !in last && image == head + "/" + last + ":" + tag
    ensures LastIndexOf(image, '/') == |head| && image[|head|..] == "/" + last + ":" + tag
  {
    assert image == head + ['/'] + (last + ":" + tag);
    LastIndexIs(head, '/', last + ":" + tag);
    assert image == head + ("/" + last + ":" + tag);
  }

  lemma CutAt(head: string, last: string, tag: string, image: string)
    requires Plain(tag) && '/' !in last && image == head + "/" + last + ":" + tag
    ensures CutTag(image) == Parts(head + "/" + last, tag)
  {
    SlashAt(head, last, tag, image);
    LastIndexIs("/" + last, ':', tag);
    var repo := head + "/" + last;
    Halves(repo + ":", tag);
    assert image == repo + (":" + tag);
    Halves(repo, ":" + tag);
  }

  lemma DropTwice(s: string, a: nat, b: nat)
    requires a + b <= |s|
    ensures s[a..][b..] == s[a + b..]
    ensures forall c :: c !in s[a..] ==> c !in s[a + b..]
  {
  }

  lemma CutSays(image: string)
    requires CutTag(image).Parts?
    ensures var c := CutTag(image); image == c.repo + ":" + c.tag && '/' in c.repo && Plain(c.tag)
  {
    var k := LastIndexOf(image, '/');
    LastIndexFinds(image, '/');
    var rest := image[k..];
    var colon := LastIndexOf(rest, ':');
    LastIndexFinds(rest, ':');
    ColonFollows(image, k, colon, rest);
    Said(image, k, k + colon);
    assert CutTag(image) == Parts(image[..k + colon], image[k + colon + 1..]);
  }

  lemma ColonFollows(image: string, k: nat, colon: nat, rest: string)
    requires k < |image| && image[k] == '/' && '/' !in image[k + 1..] && rest == image[k..]
    requires colon < |rest| && rest[colon] == ':' && ':' !in rest[colon + 1..]
    ensures colon > 0 && image[k + colon] == ':' && Plain(image[k + colon + 1..])
  {
    DropTwice(image, k, colon + 1);
    DropTwice(image, k + 1, colon);
  }

  lemma Said(image: string, k: nat, n: nat)
    requires k < n < |image| && image[k] == '/' && image[n] == ':'
    requires Plain(image[n + 1..])
    ensures image == image[..n] + ":" + image[n + 1..] && '/' in image[..n]
  {
    assert image[..n][k] == '/';
  }

  // The repository as the parser sees it: the part before the first slash is
  // taken for a registry if it looks like a host.
  predicate Divides(repo: string, registry: Option<string>, projectPath: string) {
    repo == Host(registry) + projectPath && Placed(registry, projectPath)
  }

  lemma DivisionIsProject(repo: string, registry: Option<string>, projectPath: string)
    requires Divides(repo, registry, projectPath)
    ensures Project(repo) == Some(projectPath) && projectPath != "" && '/' in repo
  {
    if registry.Some? {
      assert repo == registry.value + ['/'] + projectPath;
      IndexIs(registry.value, '/', projectPath);
      assert repo[..|registry.value|] == registry.value && repo[|registry.value| + 1..] == projectPath;
    } else {
      assert repo == projectPath;
      FirstSegment(repo);
      assert !LooksLikeHost(repo[..IndexOf(repo, '/')]);
    }
    IndexFinds(repo, '/');
  }

  lemma ProjectIsDivision(repo: string) returns (registry: Option<string>)
    requires Project(repo).Some? && Project(repo).value != ""
    ensures Divides(repo, registry, Project(repo).value)
  {
    var i := IndexOf(repo, '/');
    IndexFinds(repo, '/');
    FirstSegment(repo);
    if LooksLikeHost(repo[..i]) {
      registry := Some(repo[..i]);
      assert repo == repo[..i] + "/" + repo[i + 1..];
    } else {
      registry := None;
      assert repo == "" + repo;
    }
  }

  // A parse that succeeds has split the whole image into an optional registry,
  // the project path and a tag that says the environment and the pipeline; and
  // every image that can be split so is parsed to just that.
  lemma ReadsAreParsed(image: string, environments: seq<string>, registry: Option<string>, tag: string, ref: ImageRef)
    requires Reads(image, environments, registry, tag, ref)
    ensures ParseImage(image, environments) == Ok(ref)
  {
    var repo := Host(registry) + ref.projectPath;
    DivisionIsProject(repo, registry, ref.projectPath);
    CutIs(repo, tag);
  }

  lemma ParsesAreReads(image: string, environments: seq<string>)
    returns (registry: Option<string>, tag: string)
    requires ParseImage(image, environments).Ok?
    ensures Reads(image, environments, registry, tag, ParseImage(image, environments).ref)
  {
    CutSays(image);
    tag := CutTag(image).tag;
    registry := ProjectIsDivision(CutTag(image).repo);
  }

  lemma ParseIsExact(image: string, environments: seq<string>, ref: ImageRef)
    ensures ParseImage(image, environments) == Ok(ref)
            <==> exists registry, tag :: Reads(image, environments, registry, tag, ref)
  {
    if ParseImage(image, environments) == Ok(ref) {
      var registry, tag := ParsesAreReads(image, environments);
    }
    if registry, tag :| Reads(image, environments, registry, tag, ref) {
      ReadsAreParsed(image, environments, registry, tag, ref);
    }
  }

  // ---- What a refusal means ----

  // No slash at all, or no colon after the last one.
  lemma NothingToCut(image: string, environments: seq<string>)
    ensures ParseImage(image, environments) == Bad(NotAReference) <==> '/' !in image
    ensures ParseImage(image, environments) == Bad(NoTag) <==> exists head, last :: NoTagAfter(image, head, last)
  {
    hide ParseTag, Project, CutTag, NoTagAfter;
    CutFails(image);
    assert CutTag(image).Parts? ==> !(ParseImage(image, environments) in {Bad(NotAReference), Bad(NoTag)}) by {
      if CutTag(image).Parts? && Project(CutTag(image).repo).Some? {
        TagErrors(Project(CutTag(image).repo).value, CutTag(image).tag, environments);
      }
    }
  }

  lemma TagErrors(projectPath: string, tag: string, environments: seq<string>)
    ensures ParseTag(projectPath, tag, environments) !in {Bad(NotAReference), Bad(NoTag), Bad(NoProject), Bad(EmptyProject)}
  {
  }

  ghost predicate NoTagAfter(image: string, head: string, last: string) {
    image == head + "/" + last && '/' !in last && ':' !in last
  }

  lemma CutFails(image: string)
    ensures CutTag(image) == NoCut(NotAReference) <==> '/' !in image
    ensures CutTag(image) == NoCut(NoTag) <==> exists head, last :: NoTagAfter(image, head, last)
  {
    hide NoTagAfter;
    LastIndexFinds(image, '/');
    var k := LastIndexOf(image, '/');
    if k >= 0 {
      LastIndexFinds(image[k..], ':');
      if ':' !in image[k..] { ColonAfter(image, k); }
    }
    forall head, last | NoTagAfter(image, head, last) ensures k >= 0 && ':' !in image[k..] { NoColonAfter(image, head, last); }
  }

  lemma NoColonAfter(image: string, head: string, last: string)
    requires NoTagAfter(image, head, last)
    ensures '/' in image && 0 <= LastIndexOf(image, '/') < |image| && ':' !in image[LastIndexOf(image, '/')..]
  {
    assert image == head + ['/'] + last;
    LastIndexIs(head, '/', last);
    assert image[|head|] == '/' && image[|head|..] == "/" + last;
  }

  lemma ColonAfter(image: string, k: nat)
    requires k < |image| && image[k] == '/' && '/' !in image[k + 1..] && ':' !in image[k..]
    ensures NoTagAfter(image, image[..k], image[k + 1..])
  {
    assert image[k..] == "/" + image[k + 1..];
    assert image == image[..k] + "/" + image[k + 1..];
  }

  // Otherwise there is a tag, and what precedes it starts with a slash, or is nothing
  // but a registry, or the tag has no dash, or does not start with an environment, or
  // does not end with a number; the first of these that is so is the reason.
  lemma RefusedBecause(repo: string, tag: string, environments: seq<string>)
    requires '/' in repo && Plain(tag)
    ensures var r := ParseImage(repo + ":" + tag, environments);
      var parts := Split(tag, '-');
      if repo[0] == '/' then r == Bad(NoProject)
      else if JustHost(repo) then r == Bad(EmptyProject)
      else if '-' !in tag then r == Bad(ShortTag)
      else if parts[0] !in environments then r == Bad(UnknownEnvironment)
      else if Atoi(parts[|parts| - 1]).None? then r == Bad(NoPipeline)
      else r.Ok? && r.ref.environment == parts[0] && Some(r.ref.pipeline) == Atoi(parts[|parts| - 1])
  {
    hide CutTag, Project, JustHost, Atoi;
    CutIs(repo, tag);
    ProjectFails(repo);
    if '-' in tag { SplitFinds(tag, '-'); } else { SplitOfFree(tag, '-'); }
  }

  lemma ProjectFails(repo: string)
    requires '/' in repo
    ensures Project(repo) == None <==> repo[0] == '/'
    ensures Project(repo) == Some("") <==> repo[0] != '/' && JustHost(repo)
  {
    IndexFinds(repo, '/');
    var i := IndexOf(repo, '/');
    var host, rest := repo[..i], repo[i + 1..];
    assert repo == host + "/" + rest;
    if rest == "" { assert repo[..|repo| - 1] == host; }
    if JustHost(repo) { assert i == |repo| - 1; }
    assert rest == "" && LooksLikeHost(host) ==> '.' in repo || ':' in repo;
  }

  ghost predicate JustHost(repo: string) {
    && repo != "" && repo[|repo| - 1] == '/' && '/' !in repo[..|repo| - 1]
    && ('.' in repo || ':' in repo)
  }

  lemma SplitFinds(s: string, sep: char)
    requires sep in s
    ensures |Split(s, sep)| >= 2
  {
    IndexFinds(s, sep);
    var i := IndexOf(s, sep);
    assert s == s[..i] + [sep] + s[i + 1..];
    SplitAtFirst(s[..i], s[i + 1..], sep);
  }

  // ---- Printing ----

  // The documented form: environment, anything in between, pipeline number.
  function PrintTag(environment: string, middle: seq<string>, pipeline: nat): string {
    Join([environment] + middle + [Itoa(pipeline)], '-')
  }

  lemma {:induction false} JoinWithout(parts: seq<string>, sep: char, c: char)
    requires |parts| > 0 && c != sep && forall i :: 0 <= i < |parts| ==> c !in parts[i]
    ensures c !in Join(parts, sep)
  {
    if |parts| > 1 { JoinWithout(parts[1..], sep, c); }
  }

  // The tag as it is read back: it ends with the number, and it starts with the
  // environment unless a dash in that cuts it short.
  lemma PrintedTag(environment: string, middle: seq<string>, pipeline: nat)
    requires Plain(environment) && forall i :: 0 <= i < |middle| ==> Plain(middle[i])
    ensures var tag := PrintTag(environment, middle, pipeline);
      var parts := Split(tag, '-');
      && Plain(tag) && |parts| >= 2 && parts[|parts| - 1] == Itoa(pipeline)
      && (parts[0] == environment <==> '-' !in environment)
  {
    var number := Itoa(pipeline);
    var parts := [environment] + middle + [number];
    var tag := Join(parts, '-');
    JoinWithout(parts, '-', '/');
    JoinWithout(parts, '-', ':');
    assert parts == [environment] + (middle + [number]);
    JoinOfConcat([environment], middle + [number], '-');
    if '-' !in environment { SplitAtFirst(environment, Join(middle + [number], '-'), '-'); }
    JoinOfConcat([environment] + middle, [number], '-');
    SplitOfConcat(Join([environment] + middle, '-'), number, '-');
    SplitOfFree(number, '-');
    SplitIsFree(tag, '-');
  }

  // A number above 64 bits is not read back.
  lemma AtoiOfItoaIff(n: nat)
    ensures Atoi(Itoa(n)) == if n <= MAX_INT then Some(n) else None
  {
    AtoiOfItoa(n);
    assert Digit(Itoa(n)[0]);
  }

  lemma SameHost(r: Option<string>, s: Option<string>)
    requires Host(r) == Host(s)
    ensures r == s
  {
    if r.Some? && s.Some? {
      assert Host(r)[..|r.value|] == r.value && Host(s)[..|s.value|] == s.value;
    }
  }

  // A project path that is read back stood where it is looked for.
  lemma ParsedIsPlaced(image: string, environments: seq<string>, registry: Option<string>, projectPath: string, tag: string)
    requires image == Host(registry) + projectPath + ":" + tag && Plain(tag)
    requires ParseImage(image, environments).Ok? && ParseImage(image, environments).ref.projectPath == projectPath
    ensures Placed(registry, projectPath) && CutTag(image) == Parts(Host(registry) + projectPath, tag)
  {
    var repo := Host(registry) + projectPath;
    LastIndexFinds(image, '/');
    assert '/' in image ==> '/' in repo;
    CutIs(repo, tag);
    var found := ProjectIsDivision(repo);
    Cancelled(Host(registry), Host(found), projectPath);
    SameHost(registry, found);
  }

  lemma Cancelled<T>(a: seq<T>, b: seq<T>, c: seq<T>)
    requires a + c == b + c
    ensures a == b
  {
    assert |a| == |b|;
    assert a == (a + c)[..|a|] && b == (b + c)[..|a|];
  }

  // Printing the parts in the documented form and parsing that gives them back,
  // whatever markers stand between the environment and the number, if and only if
  // the environment is a configured one without a dash, the number fits 64 bits, and
  // the first segment looks like a host exactly when there is a registry.
  lemma PrintedIsParsedIff(environments: seq<string>, registry: Option<string>, projectPath: string,
                           environment: string, middle: seq<string>, pipeline: nat)
    requires Plain(environment) && forall i :: 0 <= i < |middle| ==> Plain(middle[i])
    ensures var image := Host(registry) + projectPath + ":" + PrintTag(environment, middle, pipeline);
      ParseImage(image, environments) == Ok(ImageRef(projectPath, environment, pipeline)) <==>
        environment in environments && '-' !in environment && pipeline <= MAX_INT && Placed(registry, projectPath)
  {
    var tag := PrintTag(environment, middle, pipeline);
    var image, ref := Host(registry) + projectPath + ":" + tag, ImageRef(projectPath, environment, pipeline);
    PrintedTag(environment, middle, pipeline);
    AtoiOfItoaIff(pipeline);
    if ParseImage(image, environments) == Ok(ref) {
      ParsedIsPlaced(image, environments, registry, projectPath, tag);
    }
    if environment in environments && '-' !in environment && pipeline <= MAX_INT && Placed(registry, projectPath) {
      ReadsAreParsed(image, environments, registry, tag, ref);
    }
  }
}
