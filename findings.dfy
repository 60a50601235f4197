/** The option loop of conf_load has no `break` after a dispatch: it goes on
    comparing the later table entries against the text after the arguments,
    with the length of the last argument as the comparison length. When that
    text is a short prefix of a later option name, the comparison succeeds
    on the terminator and `cp += wordlen` moves the cursor past the end of
    the line. This module exhibits such a line, then defines the loop with
    the evidently intended `break` and proves what it guarantees. */
module Findings {
  import opened CStr
  import opened Strtonum
  import opened Conf
  import opened ConfProps

  /** A remote followed by the word "dev". */
  const DevAfterRemote: CString := "remote 1.2.3.4 dev"

  /** The scan as written matches "dev" with the length 7 of "1.2.3.4" and
      runs past the line. */
  lemma AsWrittenOverrun(aton: Resolver)
    ensures ParseLine(DevAfterRemote, 1, Initial, aton).status == Overrun
  {
    var s := DevAfterRemote;
    OverrunWords();
    ParseStart(s, 1, Initial, aton);
    ScanMatch(s, 1, 0, 0, 6, Initial, aton);
    RemoteMatched(aton);
    var m := Matched(s, 1, 0, 0, 6, Initial, aton);
    ScanOverrun(m.g, aton);
  }

  lemma OverrunWords()
    ensures WordStart(DevAfterRemote) == 0 && Strcspn(DevAfterRemote, 0) == 6
    ensures StrncaseEq(DevAfterRemote, 0, "remote", 0, 6)
  {
    var s := DevAfterRemote;
    assert Strspn(s, 0) == 0;
    assert Strcspn(s, 0) == 6;
  }

  /** "remote" takes "1.2.3.4", warns about the text left over, and the
      scan goes on at "dev" with the length of "1.2.3.4". */
  lemma RemoteMatched(aton: Resolver)
    ensures var m := Matched(DevAfterRemote, 1, 0, 0, 6, Initial, aton);
      m.Next? && m.cp == 15 && m.wordlen == 7
  {
    RemoteArgument();
    assert Strspn(DevAfterRemote, 14) == 1;
  }

  lemma RemoteArgument()
    ensures Collect(DevAfterRemote, 6, 6, 1) == Args([DevAfterRemote[7..14]], 14, 7)
  {
    var s := DevAfterRemote;
    RemoteArgumentWord();
    assert Collect(s, 6, 6, 1) == After([s[7..14]], Collect(s, 14, 7, 0));
  }

  lemma RemoteArgumentWord()
    ensures Strspn(DevAfterRemote, 6) == 1 && Strcspn(DevAfterRemote, 7) == 7
  {
    RemoteArgumentEnd();
    assert Strspn(DevAfterRemote, 6) == 1;
  }

  lemma RemoteArgumentEnd()
    ensures Strcspn(DevAfterRemote, 7) == 7
  {
    var s := DevAfterRemote;
    assert Strcspn(s, 14) == 0;
    assert Strcspn(s, 7) == 7;
  }

  lemma ScanOverrun(g: Globals, aton: Resolver)
    ensures ScanOpts(DevAfterRemote, 1, 1, 15, 7, g, aton).status == Overrun
  {
    var s := DevAfterRemote;
    assert StrncaseEq(s, 15, "dev", 0, 7);
  }

  /** The option loop with a `break` after a successful dispatch: the first
      entry whose name the word is a prefix of is the only one applied. */
  function FirstOpt(s: CString, lineno: nat, j: nat, cp: nat, w: nat, g: Globals, aton: Resolver): (r: LineOutcome)
    requires j <= |ConfigOpts| && cp + w <= |s|
    ensures r.status != Overrun && r.status != Failed(NoOption)
    decreases |ConfigOpts| - j
  {
    if j == |ConfigOpts| then LineOutcome(Done, g)
    else if !StrncaseEq(s, cp, ConfigOpts[j].name, 0, w) then FirstOpt(s, lineno, j + 1, cp, w, g, aton)
    else match Matched(s, lineno, j, cp, w, g, aton)
      case Stop(out) => out
      case Next(_, _, g2) => LineOutcome(Done, g2)
  }

  /** One line of the corrected conf_load: the cursor never leaves the line. */
  function ParseLineFixed(s: CString, lineno: nat, g: Globals, aton: Resolver): (r: LineOutcome)
    ensures r.status != Overrun
  {
    var cp := Strspn(s, 0);
    if cp == |s| then LineOutcome(Done, g)
    else
      var wordlen := Strcspn(s, cp);
      if wordlen == 0 then LineOutcome(Failed(NoOption), g)
      else FirstOpt(s, lineno, 0, cp, wordlen, g, aton)
  }

  /** The corrected conf_load over the lines from index i on. */
  function LoadFromFixed(lines: seq<CString>, i: nat, g: Globals, aton: Resolver): (r: LoadOutcome)
    requires i <= |lines|
    ensures !r.status.Undefined?
    decreases |lines| - i
  {
    if i == |lines| then
      if |g.tunDev| == 0 then LoadOutcome(NoDev, g)
      else if g.inRemote == 0 then LoadOutcome(NoRemote, g)
      else LoadOutcome(Loaded, g)
    else
      var o := ParseLineFixed(lines[i], i + 1, g, aton);
      if o.status == Done then LoadFromFixed(lines, i + 1, o.g, aton)
      else LoadOutcome(LineFailed(i + 1), o.g)
  }

  /** After a match the warnings list grows by this line exactly when text
      is left after the arguments; the handlers never touch it. */
  lemma MatchedWarns(s: CString, lineno: nat, j: nat, cp: nat, w: nat, g: Globals, aton: Resolver)
    requires j < |ConfigOpts| && cp + w <= |s|
    ensures var m := Matched(s, lineno, j, cp, w, g, aton);
      (m.Next? ==> m.g.superfluous == g.superfluous + (if m.cp < |s| then [lineno] else [])) &&
      (m.Stop? ==> g.superfluous <= m.out.g.superfluous)
  {
  }

  /** Before and after the first match, the loop as written and the
      corrected one agree, unless the match warned about superfluous text. */
  lemma {:induction false} ScanAgrees(s: CString, lineno: nat, j: nat, cp: nat, w: nat, g: Globals, aton: Resolver)
    requires j <= |ConfigOpts| && cp + w <= |s| && w > 0
    requires FirstOpt(s, lineno, j, cp, w, g, aton).g.superfluous == g.superfluous
    ensures ScanOpts(s, lineno, j, cp, w, g, aton) == FirstOpt(s, lineno, j, cp, w, g, aton)
    decreases |ConfigOpts| - j
  {
    if j < |ConfigOpts| {
      if !StrncaseEq(s, cp, ConfigOpts[j].name, 0, w) {
        ScanNoMatch(s, lineno, j, cp, w, g, aton);
        ScanAgrees(s, lineno, j + 1, cp, w, g, aton);
      } else {
        ScanMatch(s, lineno, j, cp, w, g, aton);
        MatchedWarns(s, lineno, j, cp, w, g, aton);
        var m := Matched(s, lineno, j, cp, w, g, aton);
        if m.Next? {
          assert m.cp == |s|;
          ScanAtEnd(s, lineno, j + 1, m.wordlen, m.g, aton);
        }
      }
    }
  }

  /** A line that draws no "superfluous argument" warning from the corrected
      loop is read the same way by the loop as written. */
  lemma ParseLineAgrees(s: CString, lineno: nat, g: Globals, aton: Resolver)
    requires ParseLineFixed(s, lineno, g, aton).g.superfluous == g.superfluous
    ensures ParseLine(s, lineno, g, aton) == ParseLineFixed(s, lineno, g, aton)
  {
    if WordStart(s) < |s| {
      ParseStart(s, lineno, g, aton);
      ScanAgrees(s, lineno, 0, WordStart(s), Strcspn(s, WordStart(s)), g, aton);
    }
  }

  /** The cursor of conf_load as written stays within every line that the
      corrected loop reads without a "superfluous argument" warning. */
  lemma NoWarningNoOverrun(s: CString, lineno: nat, g: Globals, aton: Resolver)
    requires ParseLineFixed(s, lineno, g, aton).g.superfluous == g.superfluous
    ensures ParseLine(s, lineno, g, aton).status != Overrun
  {
    ParseLineAgrees(s, lineno, g, aton);
  }

  /** The corrected loop only ever appends to the warnings list. */
  lemma {:induction false} FirstOptWarnsOnly(s: CString, lineno: nat, j: nat, cp: nat, w: nat, g: Globals, aton: Resolver)
    requires j <= |ConfigOpts| && cp + w <= |s|
    ensures g.superfluous <= FirstOpt(s, lineno, j, cp, w, g, aton).g.superfluous
    decreases |ConfigOpts| - j
  {
    if j < |ConfigOpts| {
      if !StrncaseEq(s, cp, ConfigOpts[j].name, 0, w) {
        FirstOptWarnsOnly(s, lineno, j + 1, cp, w, g, aton);
      } else {
        MatchedWarns(s, lineno, j, cp, w, g, aton);
      }
    }
  }

  lemma LineWarnsOnly(s: CString, lineno: nat, g: Globals, aton: Resolver)
    ensures g.superfluous <= ParseLineFixed(s, lineno, g, aton).g.superfluous
  {
    var cp := Strspn(s, 0);
    if cp < |s| && Strcspn(s, cp) > 0 {
      FirstOptWarnsOnly(s, lineno, 0, cp, Strcspn(s, cp), g, aton);
    }
  }

  lemma {:induction false} LoadWarnsOnly(lines: seq<CString>, i: nat, g: Globals, aton: Resolver)
    requires i <= |lines|
    ensures g.superfluous <= LoadFromFixed(lines, i, g, aton).g.superfluous
    decreases |lines| - i
  {
    if i < |lines| {
      LineWarnsOnly(lines[i], i + 1, g, aton);
      var o := ParseLineFixed(lines[i], i + 1, g, aton);
      if o.status == Done {
        LoadWarnsOnly(lines, i + 1, o.g, aton);
      }
    }
  }

  /** A file that draws no "superfluous argument" warning is loaded the same
      way by conf_load as written and by the corrected loop: the missing
      `break` only matters on lines with text after the arguments. */
  lemma {:induction false} LoadAgrees(lines: seq<CString>, i: nat, g: Globals, aton: Resolver)
    requires i <= |lines|
    requires LoadFromFixed(lines, i, g, aton).g.superfluous == g.superfluous
    ensures LoadFrom(lines, i, g, aton) == LoadFromFixed(lines, i, g, aton)
    decreases |lines| - i
  {
    if i < |lines| {
      var o := ParseLineFixed(lines[i], i + 1, g, aton);
      LineWarnsOnly(lines[i], i + 1, g, aton);
      if o.status == Done {
        LoadWarnsOnly(lines, i + 1, o.g, aton);
      }
      assert o.g.superfluous == g.superfluous;
      ParseLineAgrees(lines[i], i + 1, g, aton);
      if o.status == Done {
        LoadAgrees(lines, i + 1, o.g, aton);
      }
    }
  }

  lemma {:induction false} FirstOptKeepsDevOk(s: CString, lineno: nat, j: nat, cp: nat, w: nat, g: Globals, aton: Resolver)
    requires j <= |ConfigOpts| && cp + w <= |s| && DevOk(g)
    ensures DevOk(FirstOpt(s, lineno, j, cp, w, g, aton).g)
    decreases |ConfigOpts| - j
  {
    if j < |ConfigOpts| {
      if !StrncaseEq(s, cp, ConfigOpts[j].name, 0, w) {
        FirstOptKeepsDevOk(s, lineno, j + 1, cp, w, g, aton);
      } else {
        MatchedKeepsDevOk(s, lineno, j, cp, w, g, aton);
      }
    }
  }

  /** The corrected conf_load also succeeds only with a remote and a tun
      device whose name fits in tun_dev. */
  lemma {:induction false} FixedLoadedIsComplete(lines: seq<CString>, i: nat, g: Globals, aton: Resolver)
    requires i <= |lines| && DevOk(g)
    ensures Complete(LoadFromFixed(lines, i, g, aton))
    decreases |lines| - i
  {
    if i < |lines| {
      FixedLoadStep(lines, i, g, aton);
      var o := ParseLineFixed(lines[i], i + 1, g, aton);
      if o.status == Done {
        FixedLoadedIsComplete(lines, i + 1, o.g, aton);
      }
    }
  }

  lemma FixedLoadStep(lines: seq<CString>, i: nat, g: Globals, aton: Resolver)
    requires i < |lines| && DevOk(g)
    ensures var o := ParseLineFixed(lines[i], i + 1, g, aton);
      DevOk(o.g) &&
      (o.status == Done ==> LoadFromFixed(lines, i, g, aton) == LoadFromFixed(lines, i + 1, o.g, aton)) &&
      (o.status != Done ==> LoadFromFixed(lines, i, g, aton).status != Loaded)
  {
    var cp := Strspn(lines[i], 0);
    if cp < |lines[i]| && Strcspn(lines[i], cp) > 0 {
      FirstOptKeepsDevOk(lines[i], i + 1, 0, cp, Strcspn(lines[i], cp), g, aton);
    }
  }
}
