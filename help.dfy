/**
 * `renderHelp`: the command list grouped into the admin, moderation and fun
 * sections, each command on one line with its prefixed name and aliases and a
 * mark when it is protected.
 */
module Help {
  import opened Wrappers
  import opened Text
  import opened Seqs
  import opened Commands

  datatype Section = AdminSection | ModerationSection | FunSection

  /** The sections in the order they are shown. */
  const SectionOrder: seq<Section> := [AdminSection, ModerationSection, FunSection]

  /** The section a category is listed under: a category other than admin and moderation is listed under fun. */
  function SectionOf(category: string): Section {
    if category == "admin" then AdminSection
    else if category == "moderation" then ModerationSection
    else FunSection
  }

  function Label(s: Section): string {
    match s
    case AdminSection => "إدارة"
    case ModerationSection => "إشراف"
    case FunSection => "فعاليات"
  }

  /** The line that opens a section. */
  function Heading(s: Section): string {
    "• " + Label(s)
  }

  const ProtectedMark: string := " (محمي)"

  /** Each name with the command prefix in front. */
  function Prefixed(prefix: string, names: seq<string>): (r: seq<string>)
    ensures |r| == |names| && forall i :: 0 <= i < |names| ==> r[i] == prefix + names[i]
  {
    seq(|names|, i requires 0 <= i < |names| => prefix + names[i])
  }

  /** A command's line: its prefixed name and aliases joined by ` / `, marked when it is protected. */
  function EntryLine(prefix: string, c: CommandDef): string {
    "- " + Join(Prefixed(prefix, [c.name] + c.aliases), " / ") + (if c.privileged then ProtectedMark else "")
  }

  /** The commands listed under a section, in their order. */
  function Members(cmds: seq<CommandDef>, s: Section): (r: seq<CommandDef>)
    ensures |r| <= |cmds|
    decreases |cmds|
  {
    if cmds == [] then []
    else
      var last := cmds[|cmds| - 1];
      Members(cmds[..|cmds| - 1], s) + (if SectionOf(last.category) == s then [last] else [])
  }

  function EntryLines(prefix: string, list: seq<CommandDef>): (r: seq<string>)
    ensures |r| == |list| && forall i :: 0 <= i < |list| ==> r[i] == EntryLine(prefix, list[i])
  {
    seq(|list|, i requires 0 <= i < |list| => EntryLine(prefix, list[i]))
  }

  /** A section's lines: a blank line, the heading and one line per command; nothing for an empty section. */
  function SectionLines(prefix: string, s: Section, list: seq<CommandDef>): seq<string> {
    if list == [] then [] else ["", Heading(s)] + EntryLines(prefix, list)
  }

  const Header: seq<string> := ["📋 قائمة الأوامر", "", "🛡️ ملاحظة: الأوامر المحمية تعمل للمخولين فقط."]

  function Footer(prefix: string): seq<string> {
    ["", "اكتب " + prefix + "targets لمعرفة طريقة تحديد الهدف."]
  }

  /** The lines of the given sections, in the given order. */
  function SectionsLines(prefix: string, cmds: seq<CommandDef>, sections: seq<Section>): seq<string>
    decreases |sections|
  {
    if sections == [] then []
    else
      var s := sections[|sections| - 1];
      SectionsLines(prefix, cmds, sections[..|sections| - 1]) + SectionLines(prefix, s, Members(cmds, s))
  }

  /** The help lines: the header, the admin, moderation and fun sections, then the footer. */
  function HelpLines(prefix: string, cmds: seq<CommandDef>): seq<string> {
    Header
    + SectionLines(prefix, AdminSection, Members(cmds, AdminSection))
    + SectionLines(prefix, ModerationSection, Members(cmds, ModerationSection))
    + SectionLines(prefix, FunSection, Members(cmds, FunSection))
    + Footer(prefix)
  }

  /** The help text: its lines joined by new lines. */
  function HelpBody(prefix: string, cmds: seq<CommandDef>): string {
    Join(HelpLines(prefix, cmds), "\n")
  }

  lemma SectionsInOrder(prefix: string, cmds: seq<CommandDef>)
    ensures Header + SectionsLines(prefix, cmds, SectionOrder) + Footer(prefix) == HelpLines(prefix, cmds)
  {
    var a := SectionLines(prefix, AdminSection, Members(cmds, AdminSection));
    var m := SectionLines(prefix, ModerationSection, Members(cmds, ModerationSection));
    var f := SectionLines(prefix, FunSection, Members(cmds, FunSection));
    ThreeSections(prefix, cmds, AdminSection, ModerationSection, FunSection);
    ConcatFive(Header, a, m, f, Footer(prefix));
  }

  /** The lines of three sections are theirs one after the other. */
  lemma ThreeSections(prefix: string, cmds: seq<CommandDef>, x: Section, y: Section, z: Section)
    ensures SectionsLines(prefix, cmds, [x, y, z])
            == SectionLines(prefix, x, Members(cmds, x)) + SectionLines(prefix, y, Members(cmds, y)) + SectionLines(prefix, z, Members(cmds, z))
  {
    var one, two, three := [x], [x, y], [x, y, z];
    assert one[..0] == [] && two[..1] == one && three[..2] == two;
    assert SectionsLines(prefix, cmds, one) == SectionLines(prefix, x, Members(cmds, x));
  }

  lemma ConcatFive<T>(h: seq<T>, a: seq<T>, m: seq<T>, f: seq<T>, t: seq<T>)
    ensures h + (a + m + f) + t == h + a + m + f + t
  { }

  /** The `byCat` fill: each command appended to the list of its section. */
  method SortIntoSections(cmds: seq<CommandDef>) returns (byCat: map<Section, seq<CommandDef>>)
    ensures forall s :: s in byCat && byCat[s] == Members(cmds, s)
  {
    byCat := map[AdminSection := [], ModerationSection := [], FunSection := []];
    forall s: Section ensures s in byCat && byCat[s] == Members(cmds[..0], s) {
      assert cmds[..0] == [];
      if s == AdminSection {} else if s == ModerationSection {} else {}
    }
    var i := 0;
    while i < |cmds|
      invariant 0 <= i <= |cmds|
      invariant forall s :: s in byCat && byCat[s] == Members(cmds[..i], s)
    {
      var s := SectionOf(cmds[i].category);
      byCat := byCat[s := byCat[s] + [cmds[i]]];
      assert cmds[..i + 1][..i] == cmds[..i];
      i := i + 1;
    }
    assert cmds[..i] == cmds;
  }

  /** One section's lines pushed after `lines`. */
  method PushSection(lines: seq<string>, prefix: string, s: Section, list: seq<CommandDef>) returns (out: seq<string>)
    ensures out == lines + SectionLines(prefix, s, list)
  {
    out := lines;
    if |list| == 0 {
      return;
    }
    out := out + ["", Heading(s)];
    var j := 0;
    while j < |list|
      invariant 0 <= j <= |list|
      invariant out == lines + ["", Heading(s)] + EntryLines(prefix, list[..j])
    {
      assert EntryLines(prefix, list[..j + 1]) == EntryLines(prefix, list[..j]) + [EntryLine(prefix, list[j])];
      out := out + [EntryLine(prefix, list[j])];
      j := j + 1;
    }
    assert list[..j] == list;
  }

  lemma SectionsLinesStep(prefix: string, cmds: seq<CommandDef>, sections: seq<Section>, k: nat)
    requires k < |sections|
    ensures SectionsLines(prefix, cmds, sections[..k + 1])
            == SectionsLines(prefix, cmds, sections[..k]) + SectionLines(prefix, sections[k], Members(cmds, sections[k]))
  {
    assert sections[..k + 1][..k] == sections[..k];
  }

  /** `renderHelp`: the commands are sorted into their sections, then the lines are laid out and joined. */
  method RenderHelp(prefix: string, cmds: seq<CommandDef>) returns (text: string)
    ensures text == HelpBody(prefix, cmds)
  {
    var byCat := SortIntoSections(cmds);
    var lines := Header;
    var k := 0;
    while k < |SectionOrder|
      invariant 0 <= k <= |SectionOrder|
      invariant lines == Header + SectionsLines(prefix, cmds, SectionOrder[..k])
    {
      var s := SectionOrder[k];
      SectionsLinesStep(prefix, cmds, SectionOrder, k);
      lines := PushSection(lines, prefix, s, byCat[s]);
      AppendAssoc(Header, SectionsLines(prefix, cmds, SectionOrder[..k]), SectionLines(prefix, s, Members(cmds, s)));
      k := k + 1;
    }
    assert SectionOrder[..k] == SectionOrder;
    SectionsInOrder(prefix, cmds);
    lines := lines + Footer(prefix);
    text := Join(lines, "\n");
  }

  // ----- what the help text shows ---------------------------------------------

  /** A command is listed under a section exactly when its category leads there. */
  lemma {:induction false} MembersOf(cmds: seq<CommandDef>, s: Section, c: CommandDef)
    ensures c in Members(cmds, s) <==> c in cmds && SectionOf(c.category) == s
    decreases |cmds|
  {
    if cmds != [] {
      var init := cmds[..|cmds| - 1];
      MembersOf(init, s, c);
      assert cmds == init + [cmds[|cmds| - 1]];
    }
  }

  /** A command whose category is neither admin nor moderation is listed under fun. */
  lemma UnknownCategoryUnderFun(cmds: seq<CommandDef>, c: CommandDef)
    requires c in cmds && c.category != "admin" && c.category != "moderation"
    ensures c in Members(cmds, FunSection)
    ensures c !in Members(cmds, AdminSection) && c !in Members(cmds, ModerationSection)
  {
    MembersOf(cmds, FunSection, c);
    MembersOf(cmds, AdminSection, c);
    MembersOf(cmds, ModerationSection, c);
  }

  /** Together the three sections list every command exactly once. */
  lemma {:induction false} SectionsPartition(cmds: seq<CommandDef>)
    ensures multiset(Members(cmds, AdminSection)) + multiset(Members(cmds, ModerationSection)) + multiset(Members(cmds, FunSection))
            == multiset(cmds)
    decreases |cmds|
  {
    if cmds != [] {
      var init, last := cmds[..|cmds| - 1], cmds[|cmds| - 1];
      SectionsPartition(init);
      assert cmds == init + [last];
      var sec := SectionOf(last.category);
      var a, m, f := Members(init, AdminSection), Members(init, ModerationSection), Members(init, FunSection);
      assert Members(cmds, AdminSection) == a + (if sec == AdminSection then [last] else []);
      assert Members(cmds, ModerationSection) == m + (if sec == ModerationSection then [last] else []);
      assert Members(cmds, FunSection) == f + (if sec == FunSection then [last] else []);
      PartitionStep(a, m, f, init, last, sec);
    }
  }

  /** Adding one command to the section it belongs to keeps the three sections a partition. */
  lemma PartitionStep(a: seq<CommandDef>, m: seq<CommandDef>, f: seq<CommandDef>, init: seq<CommandDef>, last: CommandDef, sec: Section)
    requires multiset(a) + multiset(m) + multiset(f) == multiset(init)
    ensures multiset(a + (if sec == AdminSection then [last] else []))
            + multiset(m + (if sec == ModerationSection then [last] else []))
            + multiset(f + (if sec == FunSection then [last] else []))
            == multiset(init + [last])
  {
    assert multiset(init + [last]) == multiset(init) + multiset{last};
  }

  /** The line of a command starts with its prefixed name and carries the mark when the command is protected. */
  lemma EntryShape(prefix: string, c: CommandDef)
    ensures StartsWith(EntryLine(prefix, c), "- " + prefix + c.name)
    ensures c.privileged ==> EndsWith(EntryLine(prefix, c), ProtectedMark)
    ensures c.aliases == [] ==> EntryLine(prefix, c) == "- " + prefix + c.name + (if c.privileged then ProtectedMark else "")
  {
    var names := Prefixed(prefix, [c.name] + c.aliases);
    var joined := Join(names, " / ");
    assert names[0] == prefix + c.name;
    assert StartsWith(joined, prefix + c.name) by {
      if |names| > 1 {
        assert joined == names[0] + " / " + Join(names[1..], " / ");
      }
    }
    assert EntryLine(prefix, c) == "- " + joined + (if c.privileged then ProtectedMark else "");
    assert ("- " + joined)[..|"- " + prefix + c.name|] == "- " + prefix + c.name;
  }

  /** A heading is neither a command line nor another section's heading. */
  lemma HeadingUnique(prefix: string, s: Section, t: Section, c: CommandDef)
    ensures EntryLine(prefix, c) != Heading(s)
    ensures s != t ==> Heading(s) != Heading(t)
  {
    assert EntryLine(prefix, c)[0] == '-' && Heading(s)[0] == '•';
    assert Heading(AdminSection)[3] == 'د' && Heading(ModerationSection)[3] == 'ش' && Heading(FunSection)[2] == 'ف';
    assert Heading(AdminSection)[2] == 'إ' && Heading(ModerationSection)[2] == 'إ';
  }

  /** A section's lines hold a heading exactly when they are that section's, and it has commands. */
  lemma HeadingInSection(prefix: string, s: Section, t: Section, list: seq<CommandDef>)
    ensures Heading(s) in SectionLines(prefix, t, list) <==> s == t && list != []
  {
    if list != [] {
      var lines := SectionLines(prefix, t, list);
      forall i | 2 <= i < |lines| ensures lines[i] != Heading(s) {
        HeadingUnique(prefix, s, t, list[i - 2]);
      }
      HeadingUnique(prefix, s, t, list[0]);
      assert lines[1] == Heading(t) && lines[0] == "";
    }
  }

  /** No heading is among the header and footer lines. */
  lemma HeadingNotFrame(prefix: string, s: Section)
    ensures Heading(s) !in Header && Heading(s) !in Footer(prefix)
  {
    assert Heading(s)[0] == '•' && Heading(s)[1] == ' ';
    assert Header[0][0] == '📋' && Header[2][1] == '\U{00FE0F}' && Footer(prefix)[1][0] == 'ا';
  }

  /** A section's heading is shown exactly when the section has commands: empty sections are left out. */
  lemma HeadingShown(prefix: string, cmds: seq<CommandDef>, s: Section)
    ensures Heading(s) in HelpLines(prefix, cmds) <==> Members(cmds, s) != []
  {
    var a := SectionLines(prefix, AdminSection, Members(cmds, AdminSection));
    var m := SectionLines(prefix, ModerationSection, Members(cmds, ModerationSection));
    var f := SectionLines(prefix, FunSection, Members(cmds, FunSection));
    HeadingInSection(prefix, s, AdminSection, Members(cmds, AdminSection));
    HeadingInSection(prefix, s, ModerationSection, Members(cmds, ModerationSection));
    HeadingInSection(prefix, s, FunSection, Members(cmds, FunSection));
    HeadingNotFrame(prefix, s);
    assert HelpLines(prefix, cmds) == Header + a + m + f + Footer(prefix);
  }

  /** Every command's line is in the help text, under its section. */
  lemma EntryListed(prefix: string, cmds: seq<CommandDef>, c: CommandDef)
    requires c in cmds
    ensures EntryLine(prefix, c) in SectionLines(prefix, SectionOf(c.category), Members(cmds, SectionOf(c.category)))
    ensures EntryLine(prefix, c) in HelpLines(prefix, cmds)
  {
    var s := SectionOf(c.category);
    var list := Members(cmds, s);
    MembersOf(cmds, s, c);
    var i :| 0 <= i < |list| && list[i] == c;
    assert SectionLines(prefix, s, list)[i + 2] == EntryLine(prefix, c);
    var a := SectionLines(prefix, AdminSection, Members(cmds, AdminSection));
    var m := SectionLines(prefix, ModerationSection, Members(cmds, ModerationSection));
    var f := SectionLines(prefix, FunSection, Members(cmds, FunSection));
    assert HelpLines(prefix, cmds) == Header + a + m + f + Footer(prefix);
  }
}
