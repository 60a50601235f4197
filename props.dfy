/** What conf_load and its handlers guarantee, proved about the functions
    of module Conf. */
module ConfProps {
  import opened CStr
  import opened Strtonum
  import opened Conf

  /** The first word of a line starts at the offset of its first non-separator. */
  function WordStart(s: CString): (cp: nat)
    ensures cp <= |s|
  {
    Strspn(s, 0)
  }

  /** The word at cp, of length w, is a non-empty case-insensitive prefix of
      option j's name. */
  predicate Matches(s: CString, cp: nat, w: nat, j: nat)
    requires cp + w <= |s| && j < |ConfigOpts|
  {
    w <= |ConfigOpts[j].name| && CaseEqRun(s, cp, ConfigOpts[j].name, 0, w)
  }

  /** A line of separators only (or an empty one) changes nothing and is no error. */
  lemma BlankLineSkipped(s: CString, lineno: nat, g: Globals, aton: Resolver)
    requires forall k :: 0 <= k < |s| ==> IsSep(s[k])
    ensures ParseLine(s, lineno, g, aton) == LineOutcome(Done, g)
  {
    StrspnStop(s, 0);
  }

  /** A line with a non-separator in it goes to the option scan with the
      first word, which has at least one character. */
  lemma ParseStart(s: CString, lineno: nat, g: Globals, aton: Resolver)
    requires WordStart(s) < |s|
    ensures Strcspn(s, WordStart(s)) >= 1
    ensures ParseLine(s, lineno, g, aton)
         == ScanOpts(s, lineno, 0, WordStart(s), Strcspn(s, WordStart(s)), g, aton)
  {
    StrspnStop(s, 0);
  }

  lemma {:induction false} ScanNeverNoOption(s: CString, lineno: nat, j: nat, cp: nat, wl: nat, g: Globals, aton: Resolver)
    requires j <= |ConfigOpts| && cp <= |s|
    ensures ScanOpts(s, lineno, j, cp, wl, g, aton).status != Failed(NoOption)
    decreases |ConfigOpts| - j
  {
    if j < |ConfigOpts| {
      if !StrncaseEq(s, cp, ConfigOpts[j].name, 0, wl) {
        ScanNoMatch(s, lineno, j, cp, wl, g, aton);
        ScanNeverNoOption(s, lineno, j + 1, cp, wl, g, aton);
      } else if cp + wl <= |s| {
        ScanMatch(s, lineno, j, cp, wl, g, aton);
        var m := Matched(s, lineno, j, cp, wl, g, aton);
        if m.Next? {
          ScanNeverNoOption(s, lineno, j + 1, m.cp, m.wordlen, m.g, aton);
        }
      }
    }
  }

  /** The "no option found" error of conf_load can never be returned: once
      separators are skipped, either the line has ended or a word starts. */
  lemma NoOptionUnreachable(s: CString, lineno: nat, g: Globals, aton: Resolver)
    ensures ParseLine(s, lineno, g, aton).status != Failed(NoOption)
  {
    if WordStart(s) < |s| {
      ParseStart(s, lineno, g, aton);
      ScanNeverNoOption(s, lineno, 0, WordStart(s), Strcspn(s, WordStart(s)), g, aton);
    }
  }

  /** Options j0 .. j-1 that do not match are passed over. */
  lemma {:induction false} ScanSkip(s: CString, lineno: nat, j0: nat, j: nat, cp: nat, w: nat, g: Globals, aton: Resolver)
    requires j0 <= j <= |ConfigOpts| && cp + w <= |s|
    requires forall i :: j0 <= i < j ==> !Matches(s, cp, w, i)
    ensures ScanOpts(s, lineno, j0, cp, w, g, aton) == ScanOpts(s, lineno, j, cp, w, g, aton)
    decreases j - j0
  {
    if j0 < j {
      assert !Matches(s, cp, w, j0);
      StrncaseEqRun(s, cp, ConfigOpts[j0].name, 0, w);
      ScanNoMatch(s, lineno, j0, cp, w, g, aton);
      ScanSkip(s, lineno, j0 + 1, j, cp, w, g, aton);
    }
  }

  /** A first word that is a prefix of no option name is ignored: no error
      and no change. */
  lemma UnknownWordIgnored(s: CString, lineno: nat, g: Globals, aton: Resolver)
    requires WordStart(s) < |s|
    requires forall j :: 0 <= j < |ConfigOpts| ==>
               !Matches(s, WordStart(s), Strcspn(s, WordStart(s)), j)
    ensures ParseLine(s, lineno, g, aton) == LineOutcome(Done, g)
  {
    var cp := WordStart(s);
    ParseStart(s, lineno, g, aton);
    ScanSkip(s, lineno, 0, |ConfigOpts|, cp, Strcspn(s, cp), g, aton);
  }

  /** With the cursor on the terminator, no later option matches. */
  lemma {:induction false} ScanAtEnd(s: CString, lineno: nat, j: nat, wl: nat, g: Globals, aton: Resolver)
    requires j <= |ConfigOpts| && wl > 0
    ensures ScanOpts(s, lineno, j, |s|, wl, g, aton) == LineOutcome(Done, g)
    decreases |ConfigOpts| - j
  {
    if j < |ConfigOpts| {
      AtEndNoMatch(s, ConfigOpts[j].name, wl);
      ScanAtEnd(s, lineno, j + 1, wl, g, aton);
    }
  }

  /** A matched option whose next nargs words include one of ARGMAX
      characters or more fails the line with nothing changed. */
  lemma MatchedTooLong(s: CString, lineno: nat, j: nat, cp: nat, w: nat, g: Globals, aton: Resolver)
    requires j < |ConfigOpts| && cp + w <= |s|
    requires !AllShort(Words(s, cp + w), ConfigOpts[j].nargs)
    ensures Matched(s, lineno, j, cp, w, g, aton) == Stop(LineOutcome(Failed(ArgTooLong), g))
  {
    CollectTooLong(s, cp + w, w, ConfigOpts[j].nargs);
  }

  /** A matched option followed by fewer than nargs words fails the line
      with nothing changed, after taking the words there are. */
  lemma MatchedTooFew(s: CString, lineno: nat, j: nat, cp: nat, w: nat, g: Globals, aton: Resolver)
    requires j < |ConfigOpts| && cp + w <= |s|
    requires AllShort(Words(s, cp + w), ConfigOpts[j].nargs)
    requires |Words(s, cp + w)| < ConfigOpts[j].nargs
    ensures Matched(s, lineno, j, cp, w, g, aton)
         == Stop(LineOutcome(Failed(MissingArgs(|Words(s, cp + w)|)), g))
  {
    CollectTooFew(s, cp + w, w, ConfigOpts[j].nargs);
  }

  /** Otherwise the handler gets exactly the next nargs words; a warning is
      logged exactly when more words follow them; a handler that returns -1
      fails the line, and after one that returns 0 the scan goes on at the
      end of the line exactly when no word was left over. */
  lemma MatchedCall(s: CString, lineno: nat, j: nat, cp: nat, w: nat, g: Globals, aton: Resolver)
    requires j < |ConfigOpts| && cp + w <= |s|
    requires AllShort(Words(s, cp + w), ConfigOpts[j].nargs)
    requires |Words(s, cp + w)| >= ConfigOpts[j].nargs
    ensures var opt := ConfigOpts[j];
      var ws := Words(s, cp + w);
      var rep := Call(opt.handler, ws[..opt.nargs], Warned(g, lineno, |ws| > opt.nargs), aton);
      var m := Matched(s, lineno, j, cp, w, g, aton);
      (!rep.ok ==> m == Stop(LineOutcome(Failed(HandlerFailed), rep.g))) &&
      (rep.ok ==> m.Next? && m.g == rep.g && m.wordlen > 0 && (m.cp == |s| <==> |ws| == opt.nargs))
  {
    var opt := ConfigOpts[j];
    var ws := Words(s, cp + w);
    CollectWords(s, cp + w, w, opt.nargs);
    var c := Collect(s, cp + w, w, opt.nargs);
    assert c.args == ws[..opt.nargs];
    WordsEmpty(s, c.cp);
    assert c.cp + Strspn(s, c.cp) < |s| <==> |ws| > opt.nargs;
  }

  /** When option j is the first one whose name starts with the first word,
      the line's outcome is what the match of option j gives, and a
      successful handler with no word left over ends the line. */
  lemma FirstMatchDispatch(s: CString, lineno: nat, j: nat, g: Globals, aton: Resolver)
    requires WordStart(s) < |s| && j < |ConfigOpts|
    requires Matches(s, WordStart(s), Strcspn(s, WordStart(s)), j)
    requires forall i :: 0 <= i < j ==> !Matches(s, WordStart(s), Strcspn(s, WordStart(s)), i)
    ensures var m := Matched(s, lineno, j, WordStart(s), Strcspn(s, WordStart(s)), g, aton);
      (m.Stop? ==> ParseLine(s, lineno, g, aton) == m.out) &&
      (m.Next? && m.cp == |s| ==> ParseLine(s, lineno, g, aton) == LineOutcome(Done, m.g))
  {
    var cp := WordStart(s);
    var w := Strcspn(s, cp);
    ParseStart(s, lineno, g, aton);
    ScanSkip(s, lineno, 0, j, cp, w, g, aton);
    StrncaseEqRun(s, cp, ConfigOpts[j].name, 0, w);
    ScanFirstMatch(s, lineno, j, cp, w, g, aton);
  }

  lemma ScanFirstMatch(s: CString, lineno: nat, j: nat, cp: nat, w: nat, g: Globals, aton: Resolver)
    requires j < |ConfigOpts| && cp + w <= |s| && w > 0 && StrncaseEq(s, cp, ConfigOpts[j].name, 0, w)
    ensures var m := Matched(s, lineno, j, cp, w, g, aton);
      (m.Stop? ==> ScanOpts(s, lineno, j, cp, w, g, aton) == m.out) &&
      (m.Next? && m.cp == |s| ==> ScanOpts(s, lineno, j, cp, w, g, aton) == LineOutcome(Done, m.g))
  {
    ScanMatch(s, lineno, j, cp, w, g, aton);
    var m := Matched(s, lineno, j, cp, w, g, aton);
    if m.Next? && m.cp == |s| {
      ScanAtEnd(s, lineno, j + 1, m.wordlen, m.g, aton);
    }
  }

  /** Every port written in decimal is accepted and stored. */
  lemma DivertPortDecimal(p: Port, g: Globals)
    ensures SetDivertPort([Decimal(p)], g) == Reply(true, g.(divertPort := p))
  {
    DecimalRoundTrip(p, 0, USHRT_MAX);
  }

  /** tun_dev is empty, or holds a tun name that fits its buffer. */
  predicate DevOk(g: Globals)
  {
    |g.tunDev| == 0 || (HasTunPrefix(g.tunDev) && |g.tunDev| < IFNAMSIZ)
  }

  lemma MatchedKeepsDevOk(s: CString, lineno: nat, j: nat, cp: nat, w: nat, g: Globals, aton: Resolver)
    requires j < |ConfigOpts| && cp + w <= |s| && DevOk(g)
    ensures var m := Matched(s, lineno, j, cp, w, g, aton);
      DevOk(if m.Stop? then m.out.g else m.g)
  {
  }

  lemma {:induction false} ScanKeepsDevOk(s: CString, lineno: nat, j: nat, cp: nat, wl: nat, g: Globals, aton: Resolver)
    requires j <= |ConfigOpts| && cp <= |s| && DevOk(g)
    ensures DevOk(ScanOpts(s, lineno, j, cp, wl, g, aton).g)
    decreases |ConfigOpts| - j
  {
    if j < |ConfigOpts| {
      if !StrncaseEq(s, cp, ConfigOpts[j].name, 0, wl) {
        ScanNoMatch(s, lineno, j, cp, wl, g, aton);
        ScanKeepsDevOk(s, lineno, j + 1, cp, wl, g, aton);
      } else if cp + wl <= |s| {
        ScanMatch(s, lineno, j, cp, wl, g, aton);
        MatchedKeepsDevOk(s, lineno, j, cp, wl, g, aton);
        var m := Matched(s, lineno, j, cp, wl, g, aton);
        if m.Next? {
          ScanKeepsDevOk(s, lineno, j + 1, m.cp, m.wordlen, m.g, aton);
        }
      }
    }
  }

  /** No line leaves in tun_dev anything but a tun name that fits. */
  lemma ParseKeepsDevOk(s: CString, lineno: nat, g: Globals, aton: Resolver)
    requires DevOk(g)
    ensures DevOk(ParseLine(s, lineno, g, aton).g)
  {
    if WordStart(s) < |s| {
      ParseStart(s, lineno, g, aton);
      ScanKeepsDevOk(s, lineno, 0, WordStart(s), Strcspn(s, WordStart(s)), g, aton);
    }
  }

  /** A successful load leaves a remote and a tun device whose name fits
      in tun_dev. */
  predicate Complete(r: LoadOutcome)
  {
    r.status == Loaded ==>
      HasTunPrefix(r.g.tunDev) && |r.g.tunDev| < IFNAMSIZ && r.g.inRemote != 0
  }

  /** conf_load succeeds only with a remote and a tun device. */
  lemma {:induction false} LoadedIsComplete(lines: seq<CString>, i: nat, g: Globals, aton: Resolver)
    requires i <= |lines| && DevOk(g)
    ensures Complete(LoadFrom(lines, i, g, aton))
    decreases |lines| - i
  {
    if i < |lines| {
      LoadStep(lines, i, g, aton);
      var o := ParseLine(lines[i], i + 1, g, aton);
      if o.status == Done {
        LoadedIsComplete(lines, i + 1, o.g, aton);
      }
    }
  }

  /** One line of conf_load: it keeps tun_dev well formed, and either the
      load goes on with the next line or it stops without success. */
  lemma LoadStep(lines: seq<CString>, i: nat, g: Globals, aton: Resolver)
    requires i < |lines| && DevOk(g)
    ensures var o := ParseLine(lines[i], i + 1, g, aton);
      DevOk(o.g) &&
      (o.status == Done ==> LoadFrom(lines, i, g, aton) == LoadFrom(lines, i + 1, o.g, aton)) &&
      (o.status != Done ==> LoadFrom(lines, i, g, aton).status != Loaded)
  {
    ParseKeepsDevOk(lines[i], i + 1, g, aton);
  }

  /** Starting from static storage, a successful load leaves a tun device
      and a remote. */
  lemma LoadFromInitial(lines: seq<CString>, aton: Resolver)
    ensures var r := LoadFrom(lines, 0, Initial, aton);
      r.status == Loaded ==> HasTunPrefix(r.g.tunDev) && r.g.inRemote != 0
  {
    LoadedIsComplete(lines, 0, Initial, aton);
  }

  /** conf_load stops at the first line that fails: lines after it are
      never read. */
  lemma {:induction false} LoadStopsAtFailure(lines: seq<CString>, more: seq<CString>, i: nat, g: Globals, aton: Resolver)
    requires i <= |lines|
    requires LoadFrom(lines, i, g, aton).status.LineFailed? || LoadFrom(lines, i, g, aton).status.Undefined?
    ensures LoadFrom(lines + more, i, g, aton) == LoadFrom(lines, i, g, aton)
    decreases |lines| - i
  {
    if i < |lines| {
      AppendStep(lines, more, i, g, aton);
      var o := ParseLine(lines[i], i + 1, g, aton);
      if o.status == Done {
        LoadStopsAtFailure(lines, more, i + 1, o.g, aton);
      }
    }
  }

  /** Line i is the same line with lines appended, so it ends the same way. */
  lemma AppendStep(lines: seq<CString>, more: seq<CString>, i: nat, g: Globals, aton: Resolver)
    requires i < |lines|
    ensures var o := ParseLine(lines[i], i + 1, g, aton);
      (o.status == Done ==>
         LoadFrom(lines + more, i, g, aton) == LoadFrom(lines + more, i + 1, o.g, aton) &&
         LoadFrom(lines, i, g, aton) == LoadFrom(lines, i + 1, o.g, aton)) &&
      (o.status != Done ==> LoadFrom(lines + more, i, g, aton) == LoadFrom(lines, i, g, aton))
  {
    assert (lines + more)[i] == lines[i];
  }
}
