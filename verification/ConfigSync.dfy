/** The managed-config synchroniser of internal/state/config.go, on config texts. */
module ConfigSync {
  import opened Text

  function CliAuthLine(): string {
    "cli_auth_credentials_store = \"file\""
  }

  function McpOauthLine(): string {
    "mcp_oauth_credentials_store = \"file\""
  }

  /** The settings forced at the top of every isolated config. */
  function CredentialConfig(): string {
    CliAuthLine() + "\n" + McpOauthLine()
  }

  // ---- The section tracker, on trimmed lines ----

  predicate IsHeader(trimmed: string) {
    "[" <= trimmed && HasSuffix(trimmed, "]")
  }

  function SectionName(header: string): string
    requires IsHeader(header)
  {
    var inner := header[1..];
    TrimSpace(if HasSuffix(inner, "]") then inner[..|inner| - 1] else inner)
  }

  function Track(section: string, trimmed: string): string {
    if IsHeader(trimmed) then SectionName(trimmed) else section
  }

  predicate IsProject(section: string) {
    section == "projects" || "projects." <= section
  }

  predicate IsShared(section: string) {
    !IsProject(section)
  }

  /** The spelling the credential filter recognises. */
  predicate IsCredentialLine(trimmed: string) {
    "cli_auth_credentials_store =" <= trimmed || "mcp_oauth_credentials_store =" <= trimmed
  }

  // ---- Specification of the two line filters ----

  function Kept(lines: seq<string>, section: string, keep: string -> bool): seq<string> {
    if lines == [] then []
    else
      var next := Track(section, TrimSpace(lines[0]));
      (if keep(next) then [lines[0]] else []) + Kept(lines[1..], next, keep)
  }

  function Uncredentialed(lines: seq<string>, section: string): seq<string> {
    if lines == [] then []
    else
      var trimmed := TrimSpace(lines[0]);
      var next := Track(section, trimmed);
      (if next == "" && IsCredentialLine(trimmed) then [] else [lines[0]]) + Uncredentialed(lines[1..], next)
  }

  function FinalSection(trimmed: seq<string>, section: string): string {
    if trimmed == [] then section else FinalSection(trimmed[1..], Track(section, trimmed[0]))
  }

  function Filtered(contents: string, keep: string -> bool): string {
    Unlines(Kept(Lines(contents), "", keep))
  }

  function WithoutCredentials(contents: string): string {
    Unlines(Uncredentialed(Lines(contents), ""))
  }

  function ManagedPart(primary: string): string {
    TrimSpace(WithoutCredentials(Filtered(primary, IsShared)))
  }

  function ProjectPart(isolated: string): string {
    TrimSpace(Filtered(isolated, IsProject))
  }

  function Block(part: string): string {
    if part == "" then "" else "\n\n" + part
  }

  /** The text syncIsolatedConfig writes for an isolated account. */
  function Synced(primary: string, isolated: string): string {
    CredentialConfig() + Block(ManagedPart(primary)) + Block(ProjectPart(isolated)) + "\n"
  }

  // ---- The source's loops ----

  lemma KeptCons(line: string, rest: seq<string>, section: string, keep: string -> bool)
    ensures var next := Track(section, TrimSpace(line));
      Kept([line] + rest, section, keep) == (if keep(next) then [line] else []) + Kept(rest, next, keep)
  {
    hide Track, TrimSpace;
    assert ([line] + rest)[1..] == rest;
  }

  lemma {:induction false} FinalSectionSnoc(lines: seq<string>, line: string, section: string)
    ensures FinalSection(TrimEach(lines + [line]), section) ==
            Track(FinalSection(TrimEach(lines), section), TrimSpace(line))
  {
    hide Track, TrimSpace;
    if lines == [] {
      assert [] + [line] == [line];
    } else {
      assert (lines + [line])[1..] == lines[1..] + [line];
      FinalSectionSnoc(lines[1..], line, Track(section, TrimSpace(lines[0])));
    }
  }

  lemma {:induction false} KeptSnoc(lines: seq<string>, line: string, section: string, keep: string -> bool)
    ensures var next := Track(FinalSection(TrimEach(lines), section), TrimSpace(line));
      Kept(lines + [line], section, keep) ==
      if keep(next) then Kept(lines, section, keep) + [line] else Kept(lines, section, keep)
  {
    hide Track, TrimSpace;
    if lines == [] {
      KeptCons(line, [], section, keep);
      assert [] + [line] == [line] + [];
    } else {
      hide Kept;
      KeptCons(lines[0], lines[1..], section, keep);
      KeptCons(lines[0], lines[1..] + [line], section, keep);
      assert lines == [lines[0]] + lines[1..];
      assert lines + [line] == [lines[0]] + (lines[1..] + [line]);
      KeptSnoc(lines[1..], line, Track(section, TrimSpace(lines[0])), keep);
    }
  }

  lemma {:induction false} UncredentialedSnoc(lines: seq<string>, line: string, section: string)
    ensures var next := Track(FinalSection(TrimEach(lines), section), TrimSpace(line));
      Uncredentialed(lines + [line], section) ==
      if next == "" && IsCredentialLine(TrimSpace(line)) then Uncredentialed(lines, section)
      else Uncredentialed(lines, section) + [line]
  {
    hide Track, TrimSpace, IsCredentialLine;
    if lines == [] {
      assert [] + [line] == [line] && [line][1..] == [];
    } else {
      assert (lines + [line])[1..] == lines[1..] + [line];
      UncredentialedSnoc(lines[1..], line, Track(section, TrimSpace(lines[0])));
    }
  }

  lemma UnlinesSnoc(lines: seq<string>, line: string)
    ensures Unlines(lines + [line]) == Unlines(lines) + line + "\n"
  {
    UnlinesConcat(lines, [line]);
    assert Unlines([line]) == line + "\n" + "";
    assert Unlines(lines) + (line + "\n") == Unlines(lines) + line + "\n";
  }

  method FilterConfig(contents: string, keep: string -> bool) returns (kept: string)
    ensures kept == Filtered(contents, keep)
  {
    hide Lines, TrimSpace, SectionName, IsCredentialLine;
    kept := "";
    var section := "";
    var lines := Lines(contents);
    for i := 0 to |lines|
      invariant section == FinalSection(TrimEach(lines[..i]), "")
      invariant kept == Unlines(Kept(lines[..i], "", keep))
    {
      var line := lines[i];
      var trimmed := TrimSpace(line);
      assert lines[..i + 1] == lines[..i] + [line];
      FinalSectionSnoc(lines[..i], line, "");
      KeptSnoc(lines[..i], line, "", keep);
      if "[" <= trimmed && HasSuffix(trimmed, "]") {
        section := SectionName(trimmed);
      }
      if keep(section) {
        UnlinesSnoc(Kept(lines[..i], "", keep), line);
        kept := kept + line;
        kept := kept + "\n";
      }
    }
    assert lines[..|lines|] == lines;
  }

  method RemoveTopLevelCredentialSettings(contents: string) returns (kept: string)
    ensures kept == WithoutCredentials(contents)
  {
    hide Lines, TrimSpace, SectionName, IsCredentialLine;
    kept := "";
    var section := "";
    var lines := Lines(contents);
    for i := 0 to |lines|
      invariant section == FinalSection(TrimEach(lines[..i]), "")
      invariant kept == Unlines(Uncredentialed(lines[..i], ""))
    {
      var line := lines[i];
      var trimmed := TrimSpace(line);
      assert lines[..i + 1] == lines[..i] + [line];
      FinalSectionSnoc(lines[..i], line, "");
      UncredentialedSnoc(lines[..i], line, "");
      if "[" <= trimmed && HasSuffix(trimmed, "]") {
        section := SectionName(trimmed);
      }
      if section == "" && IsCredentialLine(trimmed) {
        continue;
      }
      UnlinesSnoc(Uncredentialed(lines[..i], ""), line);
      kept := kept + line;
      kept := kept + "\n";
    }
    assert lines[..|lines|] == lines;
  }

  /** The text part of syncIsolatedConfig. */
  method SyncIsolatedConfig(primary: string, isolated: string) returns (contents: string)
    ensures contents == Synced(primary, isolated)
  {
    hide TrimSpace, Filtered, WithoutCredentials, CredentialConfig, IsShared, IsProject;
    var managed := FilterConfig(primary, IsShared);
    managed := RemoveTopLevelCredentialSettings(managed);
    var projects := FilterConfig(isolated, IsProject);
    contents := CredentialConfig();
    managed := TrimSpace(managed);
    if managed != "" {
      contents := contents + "\n\n" + managed;
    }
    projects := TrimSpace(projects);
    if projects != "" {
      contents := contents + "\n\n" + projects;
    }
    contents := contents + "\n";
  }

  // ---- Filtering by lines ----

  /** Every header among these trimmed lines opens a section that satisfies `p`. */
  ghost predicate AllHeaders(trimmed: seq<string>, p: string -> bool) {
    forall i :: 0 <= i < |trimmed| && IsHeader(trimmed[i]) ==> p(SectionName(trimmed[i]))
  }

  /** The section after one line whose header, if it is one, satisfies `p`. */
  lemma HeadersStep(lines: seq<string>, section: string, p: string -> bool)
    requires lines != [] && p(section) && AllHeaders(TrimEach(lines), p)
    ensures p(Track(section, TrimSpace(lines[0]))) && AllHeaders(TrimEach(lines[1..]), p)
  {
    hide SectionName, TrimSpace, IsHeader;
    assert TrimEach(lines)[1..] == TrimEach(lines[1..]);
    assert TrimEach(lines)[0] == TrimSpace(lines[0]);
  }

  /** Lines read from a rejected section, whose headers open only rejected sections, are dropped as a block. */
  lemma {:induction false} RejectedBlock(lines: seq<string>, rest: seq<string>, section: string, keep: string -> bool)
    returns (next: string)
    requires !keep(section) && AllHeaders(TrimEach(lines), s => !keep(s))
    ensures !keep(next) && Kept(lines + rest, section, keep) == Kept(rest, next, keep)
  {
    hide Track, TrimSpace, Kept, AllHeaders;
    if lines == [] {
      assert lines + rest == rest;
      next := section;
    } else {
      var here := Track(section, TrimSpace(lines[0]));
      HeadersStep(lines, section, s => !keep(s));
      assert lines + rest == [lines[0]] + (lines[1..] + rest);
      KeptCons(lines[0], lines[1..] + rest, section, keep);
      next := RejectedBlock(lines[1..], rest, here, keep);
    }
  }

  /** Lines read from an accepted section, whose headers open only accepted sections, are kept as a block. */
  lemma {:induction false} AcceptedBlock(lines: seq<string>, rest: seq<string>, section: string, keep: string -> bool)
    returns (next: string)
    requires keep(section) && AllHeaders(TrimEach(lines), keep)
    ensures keep(next) && Kept(lines + rest, section, keep) == lines + Kept(rest, next, keep)
  {
    hide Track, TrimSpace, Kept, AllHeaders, TrimEach;
    if lines == [] {
      next := section;
      assert lines + rest == rest && lines + Kept(rest, next, keep) == Kept(rest, next, keep);
    } else {
      var here := Track(section, TrimSpace(lines[0]));
      HeadersStep(lines, section, keep);
      FirstApart(lines, rest);
      KeptCons(lines[0], lines[1..] + rest, section, keep);
      next := AcceptedBlock(lines[1..], rest, here, keep);
      FirstApart(lines, Kept(rest, next, keep));
    }
  }

  lemma FirstApart(lines: seq<string>, rest: seq<string>)
    requires lines != []
    ensures lines + rest == [lines[0]] + (lines[1..] + rest)
  {
  }

  /** What filtering leaves: accepted headers only, and an accepted header first when it starts in a rejected section. */
  lemma {:induction false} KeptHeaders(lines: seq<string>, section: string, keep: string -> bool)
    ensures var kept := Kept(lines, section, keep);
      && AllHeaders(TrimEach(kept), keep)
      && (!keep(section) && kept != [] ==> IsHeader(TrimSpace(kept[0])))
      && (forall l :: l in kept ==> l in lines)
  {
    hide SectionName, TrimSpace;
    if lines != [] {
      KeptHeaders(lines[1..], Track(section, TrimSpace(lines[0])), keep);
    }
  }

  lemma {:induction false} UncredentialedHeaders(lines: seq<string>, section: string, p: string -> bool)
    requires AllHeaders(TrimEach(lines), p)
    ensures AllHeaders(TrimEach(Uncredentialed(lines, section)), p)
    ensures forall l :: l in Uncredentialed(lines, section) ==> l in lines
  {
    hide SectionName, TrimSpace;
    if lines != [] {
      assert TrimEach(lines)[1..] == TrimEach(lines[1..]);
      UncredentialedHeaders(lines[1..], Track(section, TrimSpace(lines[0])), p);
    }
  }

  // ---- The lines of a written config ----

  function BlockLines(part: string): seq<string> {
    if part == "" then [] else [""] + Lines(part)
  }

  /** The lines before the project block. */
  function SharedLines(primary: string): seq<string> {
    [CliAuthLine(), McpOauthLine()] + BlockLines(ManagedPart(primary))
  }

  lemma LinesOfBlock(text: string, part: string)
    ensures Lines(text + Block(part)) == Lines(text) + BlockLines(part)
  {
    hide Lines;
    LinesOfEmpty();
    if part == "" {
      assert text + "" == text;
    } else {
      LinesConcat(text, "\n" + part);
      assert text + "\n\n" + part == text + "\n" + ("\n" + part);
      assert text + Block(part) == text + "\n" + ("\n" + part);
      LinesConcat("", part);
      assert "" + "\n" + part == "\n" + part;
    }
  }

  lemma PlainLine(line: string)
    requires line != "" && Trimmed(line) && line[0] != '[' && '\n' !in line
    ensures Lines(line) == [line] && TrimSpace(line) == line && !IsHeader(line)
  {
    hide TrimSpace;
    LineOfNoNewline(line);
    TrimSpacePadded("", line, "");
    assert "" + line + "" == line;
  }

  lemma CredentialLinesPlain()
    ensures Lines(CredentialConfig()) == [CliAuthLine(), McpOauthLine()]
    ensures TrimSpace(CliAuthLine()) == CliAuthLine() && TrimSpace(McpOauthLine()) == McpOauthLine()
    ensures !IsHeader(CliAuthLine()) && !IsHeader(McpOauthLine())
  {
    hide Lines, TrimSpace, IsHeader;
    LinesConcat(CliAuthLine(), McpOauthLine());
    PlainLine(CliAuthLine());
    PlainLine(McpOauthLine());
  }

  lemma SharedTextLines(primary: string)
    ensures Lines(CredentialConfig() + Block(ManagedPart(primary))) == SharedLines(primary)
  {
    hide CredentialConfig, CliAuthLine, McpOauthLine, ManagedPart, Block, BlockLines;
    CredentialLinesPlain();
    LinesOfBlock(CredentialConfig(), ManagedPart(primary));
  }

  lemma SyncedLines(primary: string, isolated: string)
    ensures Lines(Synced(primary, isolated)) == SharedLines(primary) + BlockLines(ProjectPart(isolated)) + [""]
  {
    hide CredentialConfig, CliAuthLine, McpOauthLine, ManagedPart, ProjectPart, Block, BlockLines;
    var shared := CredentialConfig() + Block(ManagedPart(primary));
    var all := shared + Block(ProjectPart(isolated));
    SharedTextLines(primary);
    LinesOfBlock(shared, ProjectPart(isolated));
    LinesConcat(all, "");
    assert all + "\n" + "" == Synced(primary, isolated);
  }

  // ---- What each part contains ----

  /** The trimmed lines of a trimmed text are those of the original, blank lines around them aside. */
  lemma TrimmedLinesOf(lines: seq<string>) returns (before: nat, after: nat)
    requires forall l :: l in lines ==> '\n' !in l
    ensures TrimEach(lines) + [""] == Blanks(before) + TrimmedLines(TrimSpace(Unlines(lines))) + Blanks(after)
    ensures Trimmed(TrimSpace(Unlines(lines)))
  {
    hide TrimSpace;
    var left, right := TrimSpaceDecomposes(Unlines(lines));
    before, after := PaddingAddsBlanks(left, TrimSpace(Unlines(lines)), right);
    LinesOfUnlines(lines);
    TrimEachConcat(lines, [""]);
    TrimSpaceOfEmpty();
  }

  lemma HeadersWithin(inner: seq<string>, before: nat, after: nat, outer: seq<string>, p: string -> bool)
    requires outer + [""] == Blanks(before) + inner + Blanks(after)
    requires AllHeaders(outer, p)
    ensures AllHeaders(inner, p)
  {
    hide SectionName;
    var whole := outer + [""];
    forall i | 0 <= i < |inner| && IsHeader(inner[i]) ensures p(SectionName(inner[i])) {
      assert whole[before + i] == inner[i];
      assert before + i < |outer|;
    }
  }

  lemma ManagedPartHeaders(primary: string)
    ensures Trimmed(ManagedPart(primary))
    ensures AllHeaders(TrimmedLines(ManagedPart(primary)), IsShared)
  {
    hide TrimSpace, SectionName;
    var kept := Kept(Lines(primary), "", IsShared);
    LinesHaveNoNewline(primary);
    KeptHeaders(Lines(primary), "", IsShared);
    LinesOfUnlines(kept);
    TrimEachConcat(kept, [""]);
    TrimSpaceOfEmpty();
    UncredentialedHeaders(kept + [""], "", IsShared);
    var lines := Uncredentialed(kept + [""], "");
    var before, after := TrimmedLinesOf(lines);
    HeadersWithin(TrimmedLines(ManagedPart(primary)), before, after, TrimEach(lines), IsShared);
  }

  lemma FirstLineNotBlank(s: string)
    requires s != "" && !IsSpace(s[0])
    ensures TrimSpace(Lines(s)[0]) != ""
  {
    hide TrimSpace;
    assert s[0] != '\n';
    assert Lines(s)[0] == [s[0]] + Lines(s[1..])[0];
    InkStays(Lines(s)[0]);
  }

  lemma InkStays(s: string)
    requires s != "" && !IsSpace(s[0])
    ensures TrimSpace(s) != ""
  {
    hide IsSpace;
    assert TrimLeft(s) == s;
    hide TrimRight;
    var pad := TrimRightDecomposes(s);
    assert "" + pad == pad;
  }

  /** The project part is empty or opens with a project header, and all its headers are project headers. */
  lemma ProjectPartShape(isolated: string)
    ensures var part := ProjectPart(isolated);
      && Trimmed(part)
      && AllHeaders(TrimmedLines(part), IsProject)
      && (part != "" ==> IsHeader(TrimmedLines(part)[0]))
  {
    hide TrimSpace, SectionName, TrimEach;
    var part := ProjectPart(isolated);
    var kept := Kept(Lines(isolated), "", IsProject);
    LinesHaveNoNewline(isolated);
    KeptHeaders(Lines(isolated), "", IsProject);
    var before, after := TrimmedLinesOf(kept);
    HeadersWithin(TrimmedLines(part), before, after, TrimEach(kept), IsProject);
    if part != "" {
      FirstLineNotBlank(part);
      assert kept != [] by {
        if kept == [] {
          TrimSpaceOfEmpty();
        }
      }
      var whole := TrimEach(kept) + [""];
      assert whole[0] == TrimSpace(kept[0]);
      assert IsHeader(whole[0]);
      assert before == 0;
      assert whole[before] == TrimmedLines(part)[0];
    }
  }

  lemma HeadersOfConcat(a: seq<string>, b: seq<string>, p: string -> bool)
    requires AllHeaders(TrimEach(a), p) && AllHeaders(TrimEach(b), p)
    ensures AllHeaders(TrimEach(a + b), p)
  {
    hide TrimSpace, SectionName, IsHeader, TrimEach;
    TrimEachConcat(a, b);
  }

  lemma SharedLinesHeaders(primary: string)
    ensures AllHeaders(TrimEach(SharedLines(primary)), IsShared)
    ensures AllHeaders(TrimEach(SharedLines(primary) + [""]), IsShared)
  {
    hide TrimSpace, SectionName, CliAuthLine, McpOauthLine, ManagedPart, IsShared;
    var part := ManagedPart(primary);
    CredentialLinesPlain();
    ManagedPartHeaders(primary);
    TrimSpaceOfEmpty();
    assert AllHeaders(TrimEach([""]), IsShared);
    if part != "" {
      HeadersOfConcat([""], Lines(part), IsShared);
    }
    HeadersOfConcat([CliAuthLine(), McpOauthLine()], BlockLines(part), IsShared);
    HeadersOfConcat(SharedLines(primary), [""], IsShared);
  }

  /** A project block is kept or dropped as a whole, whatever section it is read from. */
  lemma ProjectBlock(isolated: string, section: string)
    requires ProjectPart(isolated) != ""
    ensures var block := Lines(ProjectPart(isolated)) + [""];
      Kept(block, section, IsProject) == block && Kept(block, section, IsShared) == []
  {
    hide TrimSpace, SectionName, TrimEach, ProjectPart;
    var part := ProjectPart(isolated);
    ProjectPartShape(isolated);
    var header := SectionName(TrimSpace(Lines(part)[0]));
    TrimSpaceOfEmpty();
    var kept := AcceptedBlock(Lines(part), [""], header, IsProject);
    assert AllHeaders(TrimEach(Lines(part)), s => !IsShared(s)) by {
      var trimmed := TrimEach(Lines(part));
      forall i | 0 <= i < |trimmed| && IsHeader(trimmed[i]) ensures !IsShared(SectionName(trimmed[i])) {
        assert IsProject(SectionName(trimmed[i]));
      }
    }
    var dropped := RejectedBlock(Lines(part), [""], header, IsShared);
    assert forall keep :: Kept(Lines(part) + [""], section, keep) == Kept(Lines(part) + [""], header, keep);
  }

  lemma NothingKept(section: string, other: string)
    ensures forall s, keep :: Kept([], s, keep) == []
  {
  }

  /** What the two filters leave of a written config's lines. */
  lemma KeptOfSynced(primary: string, isolated: string)
    ensures var lines := Lines(Synced(primary, isolated));
      && Kept(lines, "", IsShared) == SharedLines(primary) + [""]
      && Kept(lines, "", IsProject) ==
           (if ProjectPart(isolated) == "" then [] else Lines(ProjectPart(isolated)) + [""])
  {
    hide TrimSpace, SectionName, SharedLines, Synced, TrimEach, ProjectPart, Kept, Lines;
    var part := ProjectPart(isolated);
    var before := SharedLines(primary);
    NothingKept("", "");
    SyncedLines(primary, isolated);
    SharedLinesHeaders(primary);
    TrimSpaceOfEmpty();
    var rest := if part == "" then [] else Lines(part) + [""];
    assert Lines(Synced(primary, isolated)) == before + [""] + rest;
    var kept := AcceptedBlock(before + [""], rest, "", IsShared);
    var dropped := RejectedBlock(before + [""], rest, "", IsProject);
    if part != "" {
      ProjectBlock(isolated, kept);
      ProjectBlock(isolated, dropped);
    }
  }

  /** Two newlines behind a trimmed text are trimmed away again. */
  lemma TrimmedUnlines(text: string)
    requires Trimmed(text)
    ensures TrimSpace(Unlines(Lines(text) + [""])) == text
  {
    hide TrimSpace, Lines;
    UnlinesConcat(Lines(text), [""]);
    UnlinesOfLines(text);
    assert Unlines([""]) == "\n";
    assert "" + text + "\n\n" == text + "\n" + "\n";
    TrimSpacePadded("", text, "\n\n");
  }

  // ---- Main results ----

  /** Reading a written config back recovers exactly the isolated account's own project sections. */
  lemma ProjectsSurviveSync(primary: string, isolated: string)
    ensures ProjectPart(Synced(primary, isolated)) == ProjectPart(isolated)
  {
    hide TrimSpace, Synced, Kept, Lines;
    var part := ProjectPart(isolated);
    KeptOfSynced(primary, isolated);
    ProjectPartShape(isolated);
    if part == "" {
      TrimSpaceOfEmpty();
    } else {
      TrimmedUnlines(part);
    }
  }

  /** Absorption: what an earlier sync wrote leaves no trace in a later one. */
  lemma SyncAbsorbs(newer: string, older: string, isolated: string)
    ensures Synced(newer, Synced(older, isolated)) == Synced(newer, isolated)
  {
    hide TrimSpace, ProjectPart, ManagedPart, CredentialConfig;
    ProjectsSurviveSync(older, isolated);
  }

  /** Outside project sections a written config depends on the primary text alone. */
  lemma SharedTextOfSync(primary: string, isolated: string)
    ensures TrimSpace(Filtered(Synced(primary, isolated), IsShared)) == CredentialConfig() + Block(ManagedPart(primary))
  {
    hide TrimSpace, Synced, Kept, Lines, CredentialConfig, Block, ManagedPart;
    KeptOfSynced(primary, isolated);
    SharedTextLines(primary);
    SharedTextTrimmed(primary);
    TrimmedUnlines(CredentialConfig() + Block(ManagedPart(primary)));
  }

  lemma SharedTextTrimmed(primary: string)
    ensures Trimmed(CredentialConfig() + Block(ManagedPart(primary)))
  {
    hide ManagedPart;
    ManagedPartHeaders(primary);
  }

  // ---- Every section, line by line ----

  /** The non-blank lines a reader attributes to the section `name`, trimmed, when it starts in `section`. */
  function Under(trimmed: seq<string>, section: string, name: string): seq<string> {
    if trimmed == [] then []
    else
      var next := Track(section, trimmed[0]);
      (if next == name && trimmed[0] != "" then [trimmed[0]] else []) + Under(trimmed[1..], next, name)
  }

  /** The lines of a config text under one section, headers included; "" is the top level. */
  function LinesUnder(contents: string, name: string): seq<string> {
    Under(TrimmedLines(contents), "", name)
  }

  function WithoutCredentialLines(lines: seq<string>): seq<string> {
    if lines == [] then []
    else (if IsCredentialLine(lines[0]) then [] else [lines[0]]) + WithoutCredentialLines(lines[1..])
  }

  function TopLevelSettings(contents: string): seq<string> {
    LinesUnder(contents, "")
  }

  lemma {:induction false} UnderConcat(a: seq<string>, b: seq<string>, section: string, name: string)
    ensures Under(a + b, section, name) == Under(a, section, name) + Under(b, FinalSection(a, section), name)
  {
    hide Track;
    if a == [] {
      assert a + b == b;
    } else {
      assert (a + b)[1..] == a[1..] + b;
      UnderConcat(a[1..], b, Track(section, a[0]), name);
    }
  }

  lemma {:induction false} BlanksAddNothing(n: nat, section: string, name: string)
    ensures Under(Blanks(n), section, name) == [] && FinalSection(Blanks(n), section) == section
  {
    hide SectionName;
    if n > 0 {
      assert Blanks(n)[1..] == Blanks(n - 1);
      BlanksAddNothing(n - 1, section, name);
    }
  }

  lemma PaddingAddsNothing(before: nat, middle: seq<string>, after: nat, section: string, name: string)
    ensures Under(Blanks(before) + middle + Blanks(after), section, name) == Under(middle, section, name)
  {
    hide Under, FinalSection, Blanks;
    UnderConcat(Blanks(before) + middle, Blanks(after), section, name);
    UnderConcat(Blanks(before), middle, section, name);
    BlanksAddNothing(before, section, name);
    BlanksAddNothing(after, FinalSection(Blanks(before) + middle, section), name);
  }

  lemma UnderLine(line: string, rest: seq<string>, section: string, name: string)
    ensures var next := Track(section, TrimSpace(line));
      Under(TrimEach([line] + rest), section, name) ==
      (if next == name && TrimSpace(line) != "" then [TrimSpace(line)] else []) + Under(TrimEach(rest), next, name)
  {
    hide TrimSpace, Track;
    assert TrimEach([line] + rest) == [TrimSpace(line)] + TrimEach(rest);
  }

  /** Dropping other sections does not change what is read under a kept one. */
  lemma {:induction false} FilterKeepsSection(lines: seq<string>, section: string, reread: string, keep: string -> bool,
                                              name: string)
    requires keep(name) && (keep(section) ==> reread == section)
    ensures Under(TrimEach(Kept(lines, section, keep)), reread, name) == Under(TrimEach(lines), section, name)
  {
    hide TrimSpace, SectionName;
    if lines != [] {
      var next := Track(section, TrimSpace(lines[0]));
      var rest := Kept(lines[1..], next, keep);
      FilterKeepsSection(lines[1..], next, if keep(next) then next else reread, keep, name);
      assert TrimEach(lines)[1..] == TrimEach(lines[1..]);
      if keep(next) {
        assert Track(reread, TrimSpace(lines[0])) == next;
        UnderLine(lines[0], rest, reread, name);
      } else {
        assert Kept(lines, section, keep) == rest;
      }
    }
  }

  lemma CredentialLineIsNoHeader(trimmed: string)
    requires IsCredentialLine(trimmed)
    ensures !IsHeader(trimmed) && trimmed != ""
  {
    assert trimmed[0] == "cli_auth_credentials_store ="[0] || trimmed[0] == "mcp_oauth_credentials_store ="[0];
  }

  lemma WithoutOne(line: string, rest: seq<string>)
    ensures WithoutCredentialLines([line] + rest) ==
            (if IsCredentialLine(line) then [] else [line]) + WithoutCredentialLines(rest)
  {
    assert ([line] + rest)[1..] == rest;
  }

  /** What the credential filter leaves of the lines read under a section. */
  function LessCredentials(lines: seq<string>, name: string): seq<string> {
    if name == "" then WithoutCredentialLines(lines) else lines
  }

  lemma LessOne(line: string, rest: seq<string>, name: string)
    ensures LessCredentials([line] + rest, name) ==
            (if name == "" && IsCredentialLine(line) then [] else [line]) + LessCredentials(rest, name)
    ensures [] + LessCredentials(rest, name) == LessCredentials(rest, name)
  {
    hide IsCredentialLine;
    WithoutOne(line, rest);
  }

  /** The credential filter removes the recognised top-level lines and nothing else from any section. */
  lemma {:induction false} CredentialFilterSections(lines: seq<string>, section: string, name: string)
    ensures Under(TrimEach(Uncredentialed(lines, section)), section, name) ==
            LessCredentials(Under(TrimEach(lines), section, name), name)
  {
    hide TrimSpace, SectionName, IsCredentialLine, LessCredentials;
    if lines == [] {
      NothingLess(name);
    } else {
      var trimmed := TrimSpace(lines[0]);
      var next := Track(section, trimmed);
      CredentialFilterSections(lines[1..], next, name);
      var rest, tail := Uncredentialed(lines[1..], next), Under(TrimEach(lines[1..]), next, name);
      assert lines == [lines[0]] + lines[1..];
      UnderLine(lines[0], lines[1..], section, name);
      LessOne(trimmed, tail, name);
      assert [] + tail == tail;
      if next == "" && IsCredentialLine(trimmed) {
        CredentialLineIsNoHeader(trimmed);
        assert Uncredentialed(lines, section) == rest;
      } else {
        assert Uncredentialed(lines, section) == [lines[0]] + rest;
        UnderLine(lines[0], rest, section, name);
      }
    }
  }

  lemma NothingLess(name: string)
    ensures LessCredentials([], name) == []
  {
  }

  /** Lines whose headers all open other sections add nothing to this one. */
  lemma {:induction false} OtherSectionsAddNothing(trimmed: seq<string>, section: string, p: string -> bool, name: string)
    requires p(section) && !p(name) && AllHeaders(trimmed, p)
    ensures Under(trimmed, section, name) == []
  {
    hide SectionName;
    if trimmed != [] {
      OtherSectionsAddNothing(trimmed[1..], Track(section, trimmed[0]), p, name);
    }
  }

  lemma TrailingBlank(lines: seq<string>, section: string, name: string)
    ensures Under(TrimEach(lines + [""]), section, name) == Under(TrimEach(lines), section, name)
    ensures Under(TrimEach(lines) + [""], section, name) == Under(TrimEach(lines), section, name)
  {
    hide TrimSpace, Track, Under;
    TrimEachConcat(lines, [""]);
    TrimSpaceOfEmpty();
    assert TrimEach([""]) == [""] == Blanks(1);
    PaddingAddsNothing(0, TrimEach(lines), 1, section, name);
    assert Blanks(0) + TrimEach(lines) + Blanks(1) == TrimEach(lines) + [""];
  }

  /** Trimming a text as a whole leaves what is read under each section. */
  lemma TrimmingKeepsSections(lines: seq<string>, section: string, name: string)
    requires forall l :: l in lines ==> '\n' !in l
    ensures Under(TrimmedLines(TrimSpace(Unlines(lines))), section, name) == Under(TrimEach(lines), section, name)
  {
    hide TrimSpace, Track, Under, TrimEach, Blanks;
    var before, after := TrimmedLinesOf(lines);
    PaddingAddsNothing(before, TrimmedLines(TrimSpace(Unlines(lines))), after, section, name);
    TrailingBlank(lines, section, name);
  }

  lemma ManagedSections(primary: string, name: string)
    requires IsShared(name)
    ensures LinesUnder(ManagedPart(primary), name) == LessCredentials(LinesUnder(primary, name), name)
  {
    hide TrimSpace, SectionName, IsCredentialLine, Track, Under, TrimEach, Blanks, LessCredentials;
    var kept := Kept(Lines(primary), "", IsShared);
    LinesHaveNoNewline(primary);
    KeptHeaders(Lines(primary), "", IsShared);
    FilterKeepsSection(Lines(primary), "", "", IsShared, name);
    LinesOfUnlines(kept);
    CredentialFilterSections(kept + [""], "", name);
    var lines := Uncredentialed(kept + [""], "");
    UncredentialedHeaders(kept + [""], "", _ => true);
    TrimmingKeepsSections(lines, "", name);
    TrailingBlank(kept, "", name);
  }

  lemma ManagedHasNoProjects(primary: string, name: string)
    requires IsProject(name)
    ensures LinesUnder(ManagedPart(primary), name) == []
  {
    hide ManagedPart;
    ManagedPartHeaders(primary);
    OtherSectionsAddNothing(TrimmedLines(ManagedPart(primary)), "", IsShared, name);
  }

  lemma ProjectSections(isolated: string, section: string, name: string)
    requires IsProject(name)
    ensures Under(TrimmedLines(ProjectPart(isolated)), section, name) == LinesUnder(isolated, name)
  {
    hide TrimSpace, SectionName, Track, Under, TrimEach;
    LinesHaveNoNewline(isolated);
    KeptHeaders(Lines(isolated), "", IsProject);
    FilterKeepsSection(Lines(isolated), "", section, IsProject, name);
    TrimmingKeepsSections(Kept(Lines(isolated), "", IsProject), section, name);
  }

  lemma ProjectsHaveNothingElse(isolated: string, section: string, name: string)
    requires IsShared(name)
    ensures Under(TrimmedLines(ProjectPart(isolated)), section, name) == []
  {
    hide TrimSpace, SectionName, ProjectPart;
    var part := ProjectPart(isolated);
    ProjectPartShape(isolated);
    if part == "" {
      TrimSpaceOfEmpty();
      assert TrimmedLines(part) == Blanks(1);
      BlanksAddNothing(1, section, name);
    } else {
      var trimmed := TrimmedLines(part);
      OtherSectionsAddNothing(trimmed, SectionName(trimmed[0]), IsProject, name);
      assert Under(trimmed, section, name) == Under(trimmed, SectionName(trimmed[0]), name);
    }
  }

  lemma BlockSections(part: string, section: string, name: string)
    ensures Under(TrimEach(BlockLines(part)), section, name) == Under(TrimmedLines(part), section, name)
  {
    hide TrimSpace, SectionName;
    TrimSpaceOfEmpty();
    if part == "" {
      assert TrimmedLines("") == Blanks(1);
      BlanksAddNothing(1, section, name);
    } else {
      UnderLine("", Lines(part), section, name);
    }
  }

  /** A written config is read as the forced lines, the managed part and the project part, one after the other. */
  lemma PartsOfSync(primary: string, isolated: string, name: string) returns (section: string)
    ensures LinesUnder(Synced(primary, isolated), name) ==
            (if name == "" then [CliAuthLine(), McpOauthLine()] else [])
            + LinesUnder(ManagedPart(primary), name)
            + Under(TrimmedLines(ProjectPart(isolated)), section, name)
  {
    hide TrimSpace, SectionName, IsCredentialLine, Track, TrimEach, CliAuthLine, McpOauthLine,
      ManagedPart, ProjectPart, BlockLines, Synced, Under, FinalSection;
    var forced := [CliAuthLine(), McpOauthLine()];
    var managed, projects := BlockLines(ManagedPart(primary)), BlockLines(ProjectPart(isolated));
    SyncedLines(primary, isolated);
    assert Lines(Synced(primary, isolated)) == (forced + managed + projects) + [""];
    TrailingBlank(forced + managed + projects, "", name);
    TrimEachConcat(forced + managed, projects);
    TrimEachConcat(forced, managed);
    UnderConcat(TrimEach(forced + managed), TrimEach(projects), "", name);
    UnderConcat(TrimEach(forced), TrimEach(managed), "", name);
    ForcedSections(name);
    BlockSections(ManagedPart(primary), "", name);
    section := FinalSection(TrimEach(forced + managed), "");
    BlockSections(ProjectPart(isolated), section, name);
  }

  /** Section by section, a written config holds exactly: the isolated account's own lines under "projects" and
      "projects.…"; at the top level the two forced lines and the primary's others; and the primary's lines everywhere else. */
  lemma SectionsOfSync(primary: string, isolated: string, name: string)
    ensures LinesUnder(Synced(primary, isolated), name) ==
            if name == "projects" || "projects." <= name then LinesUnder(isolated, name)
            else if name == "" then
              ["cli_auth_credentials_store = \"file\"", "mcp_oauth_credentials_store = \"file\""]
              + WithoutCredentialLines(LinesUnder(primary, name))
            else LinesUnder(primary, name)
  {
    hide ManagedPart, ProjectPart, Synced, Under, LinesUnder, TrimmedLines, WithoutCredentialLines;
    var section := PartsOfSync(primary, isolated, name);
    if IsProject(name) {
      ManagedHasNoProjects(primary, name);
      ProjectSections(isolated, section, name);
    } else {
      ManagedSections(primary, name);
      ProjectsHaveNothingElse(isolated, section, name);
    }
  }

  // ---- Credential settings ----

  /** The top level of a written config: the two forced lines, then the primary's own without the lines the filter recognises. */
  lemma TopLevelOfSync(primary: string, isolated: string)
    ensures TopLevelSettings(Synced(primary, isolated)) ==
            [CliAuthLine(), McpOauthLine()] + WithoutCredentialLines(TopLevelSettings(primary))
  {
    hide Synced, LinesUnder, WithoutCredentialLines;
    SectionsOfSync(primary, isolated, "");
  }

  lemma ForcedSections(name: string)
    ensures var forced := TrimEach([CliAuthLine(), McpOauthLine()]);
      && Under(forced, "", name) == (if name == "" then [CliAuthLine(), McpOauthLine()] else [])
      && FinalSection(forced, "") == ""
  {
    hide TrimSpace, SectionName, IsHeader;
    CredentialLinesPlain();
    var forced := TrimEach([CliAuthLine(), McpOauthLine()]);
    assert forced == [CliAuthLine(), McpOauthLine()];
    assert forced[1..] == [McpOauthLine()] && forced[1..][1..] == [];
    assert CliAuthLine() != "" && McpOauthLine() != "";
    hide CliAuthLine, McpOauthLine;
    assert Track("", CliAuthLine()) == "" && Track("", McpOauthLine()) == "";
    assert Under(forced[1..], "", name) == if name == "" then [McpOauthLine()] else [];
    assert Under(forced, "", name) == (if name == "" then [CliAuthLine()] else []) + Under(forced[1..], "", name);
  }

  // ---- Which credential settings get through ----

  /** A line that assigns one of the two credential settings, however the `=` is spaced. */
  predicate AssignsCredential(trimmed: string) {
    Assigns("cli_auth_credentials_store", trimmed) || Assigns("mcp_oauth_credentials_store", trimmed)
  }

  predicate Assigns(key: string, trimmed: string) {
    key <= trimmed && "=" <= TrimLeft(trimmed[|key|..])
  }

  lemma {:induction false} WithoutCredentialLinesMembers(lines: seq<string>)
    ensures forall t :: t in WithoutCredentialLines(lines) <==> t in lines && !IsCredentialLine(t)
  {
    hide IsCredentialLine;
    if lines != [] {
      WithoutCredentialLinesMembers(lines[1..]);
    }
  }

  lemma ForcedLinesAreRecognised()
    ensures IsCredentialLine(CliAuthLine()) && IsCredentialLine(McpOauthLine())
  {
  }

  /** An isolated config forces the credential stores exactly when the primary's top level spells
      every assignment of them with one space before the `=`. */
  lemma CredentialsForcedIff(primary: string, isolated: string)
    ensures (forall t :: t in TopLevelSettings(Synced(primary, isolated)) && AssignsCredential(t) ==>
               t == CliAuthLine() || t == McpOauthLine())
       <==> (forall t :: t in TopLevelSettings(primary) && AssignsCredential(t) ==>
               "cli_auth_credentials_store =" <= t || "mcp_oauth_credentials_store =" <= t)
  {
    hide AssignsCredential, TopLevelSettings, Synced, CliAuthLine, McpOauthLine;
    TopLevelOfSync(primary, isolated);
    WithoutCredentialLinesMembers(TopLevelSettings(primary));
    ForcedLinesAreRecognised();
  }

  /** The credential filter misses a setting written without a space before the `=`. */
  lemma UnspacedCredentialLeaks(isolated: string)
    ensures var leak := "cli_auth_credentials_store=\"keyring\"";
      AssignsCredential(leak) && leak in TopLevelSettings(Synced(leak, isolated))
  {
    hide TopLevelSettings, Synced, AssignsCredential, IsCredentialLine, CliAuthLine, McpOauthLine, WithoutCredentialLines;
    var leak := "cli_auth_credentials_store=\"keyring\"";
    LeakIsTopLevel();
    LeakUnrecognised();
    TopLevelOfSync(leak, isolated);
    WithoutCredentialLinesMembers([leak]);
  }

  lemma LeakIsTopLevel()
    ensures var leak := "cli_auth_credentials_store=\"keyring\""; TopLevelSettings(leak) == [leak]
  {
    hide TrimSpace, IsCredentialLine;
    var leak := "cli_auth_credentials_store=\"keyring\"";
    PlainLine(leak);
    assert TrimmedLines(leak) == [leak];
  }

  lemma LeakUnrecognised()
    ensures var leak := "cli_auth_credentials_store=\"keyring\"";
      AssignsCredential(leak) && !IsCredentialLine(leak)
  {
    var leak := "cli_auth_credentials_store=\"keyring\"";
    var key := "cli_auth_credentials_store";
    assert leak[..26] == key && leak[26] == '=';
    assert TrimLeft(leak[26..]) == leak[26..];
    assert leak[0] == 'c' && leak[26] != ' ';
    assert "cli_auth_credentials_store ="[26] == ' ' && "mcp_oauth_credentials_store ="[0] == 'm';
  }
}
