/** The globals of icmpnam.c and the functions that fill them from the
    configuration file, imperatively: conf_load walks a cursor along each
    line and the handlers assign the globals in place. Each method is proved
    to do what the matching function of module Conf says. */
module Loader {
  import opened CStr
  import opened Strtonum
  import opened Conf

  class Icmpnam {
    var tunDev: seq<char>
    var tunUs: Addr
    var tunThem: Addr
    var inRemote: Addr
    var divertPort: Port
    /** Line numbers of the "superfluous argument" warnings logged. */
    var superfluous: seq<nat>

    /** The globals as a value. */
    function Snapshot(): Globals
      reads this
    {
      Globals(tunDev, tunUs, tunThem, inRemote, divertPort, superfluous)
    }

    /** Static storage: zeroes, and divert_port = DIVERT_PORT. */
    constructor ()
      ensures Snapshot() == Initial
    {
      tunDev := [];
      tunUs := 0;
      tunThem := 0;
      inRemote := 0;
      divertPort := DIVERT_PORT;
      superfluous := [];
    }

    /** conf_remote: returns 0 or -1. */
    method ConfRemote(argv: seq<seq<char>>, aton: Resolver) returns (rv: int)
      requires |argv| == 1
      modifies this
      ensures rv == 0
      ensures Snapshot() == SetRemote(argv, old(Snapshot()), aton).g
    {
      var a := aton(argv[0]);
      if a.Some? {
        inRemote := a.value;
      }
      rv := 0;
    }

    /** conf_dev: returns 0 or -1. */
    method ConfDev(argv: seq<seq<char>>, aton: Resolver) returns (rv: int)
      requires |argv| == 3
      modifies this
      ensures rv == (if HasTunPrefix(argv[0]) then 0 else -1)
      ensures Snapshot() == SetDev(argv, old(Snapshot()), aton).g
    {
      var dev, us, them := argv[0], argv[1], argv[2];
      if !(|dev| >= 3 && dev[0] == 't' && dev[1] == 'u' && dev[2] == 'n') {
        return -1;
      }
      tunDev := if |dev| < IFNAMSIZ then dev else dev[..IFNAMSIZ - 1];
      var a := aton(us);
      if a.Some? {
        tunUs := a.value;
      }
      a := aton(them);
      if a.Some? {
        tunThem := a.value;
      }
      rv := 0;
    }

    /** conf_divert_port: returns 0 or -1; divert_port is assigned first. */
    method ConfDivertPort(argv: seq<seq<char>>) returns (rv: int)
      requires |argv| == 1
      modifies this
      ensures rv == (if SetDivertPort(argv, old(Snapshot())).ok then 0 else -1)
      ensures Snapshot() == SetDivertPort(argv, old(Snapshot())).g
    {
      var n := StrToNum(argv[0], 0, USHRT_MAX);
      divertPort := if n.Num? then n.value else 0;
      rv := if n.Num? then 0 else -1;
    }

    /** copts->func(argv). */
    method Dispatch(h: Handler, argv: seq<seq<char>>, aton: Resolver) returns (rv: int)
      requires |argv| == Arity(h)
      modifies this
      ensures rv == (if Call(h, argv, old(Snapshot()), aton).ok then 0 else -1)
      ensures Snapshot() == Call(h, argv, old(Snapshot()), aton).g
    {
      match h
      case Remote => rv := ConfRemote(argv, aton);
      case Dev => rv := ConfDev(argv, aton);
      case DivertPort => rv := ConfDivertPort(argv);
    }

    /** One turn of the line loop of conf_load: the cursor cp walks the line,
        the option loop runs over the whole table without stopping at a
        match. */
    method ConfLine(line: CString, lineno: nat, aton: Resolver) returns (st: LineStatus)
      modifies this
      ensures LineOutcome(st, Snapshot()) == ParseLine(line, lineno, old(Snapshot()), aton)
    {
      var cp: nat := Strspn(line, 0);
      if cp == |line| {
        return Done;
      }
      var wordlen: nat := Strcspn(line, cp);
      if wordlen == 0 {
        return Failed(NoOption);
      }
      var j: nat := 0;
      while j < |ConfigOpts|
        invariant j <= |ConfigOpts| && cp <= |line|
        invariant ScanOpts(line, lineno, j, cp, wordlen, Snapshot(), aton)
                  == ParseLine(line, lineno, old(Snapshot()), aton)
        decreases |ConfigOpts| - j
      {
        if StrncaseEq(line, cp, ConfigOpts[j].name, 0, wordlen) {
          if cp + wordlen > |line| {
            return Overrun;
          }
          ScanMatch(line, lineno, j, cp, wordlen, Snapshot(), aton);
          var stop, ncp, nwl;
          stop, st, ncp, nwl := ConfOption(line, lineno, j, cp, wordlen, aton);
          if stop {
            return st;
          }
          cp, wordlen := ncp, nwl;
        } else {
          ScanNoMatch(line, lineno, j, cp, wordlen, Snapshot(), aton);
        }
        j := j + 1;
      }
      return Done;
    }

    /** The body of the option loop once entry j has matched and the cursor
        is still in the line: the argument loop, the warning about text left
        over, and the call of the handler. */
    method ConfOption(line: CString, lineno: nat, j: nat, cp: nat, wordlen: nat, aton: Resolver)
      returns (stop: bool, st: LineStatus, ncp: nat, nwl: nat)
      requires j < |ConfigOpts| && cp + wordlen <= |line|
      modifies this
      ensures stop ==> Matched(line, lineno, j, cp, wordlen, old(Snapshot()), aton) == Stop(LineOutcome(st, Snapshot()))
      ensures !stop ==> Matched(line, lineno, j, cp, wordlen, old(Snapshot()), aton) == Next(ncp, nwl, Snapshot())
    {
      var copts := ConfigOpts[j];
      var got := CollectArgs(line, cp + wordlen, wordlen, copts.nargs);
      if got.TooFew? {
        return true, Failed(MissingArgs(got.given)), 0, 0;
      } else if got.TooLong? {
        return true, Failed(ArgTooLong), 0, 0;
      }
      ncp := got.cp + Strspn(line, got.cp);
      nwl := got.wordlen;
      if ncp < |line| {
        superfluous := superfluous + [lineno];
      }
      var rv := Dispatch(copts.handler, got.args, aton);
      if rv == -1 {
        return true, Failed(HandlerFailed), 0, 0;
      }
      stop, st := false, Done;
    }

    /** The argument loop of conf_load: nargs words are copied out of the
        line, each after skipping separators and each shorter than ARGMAX. */
    static method CollectArgs(line: CString, cp: nat, wordlen: nat, n: nat) returns (r: Collected)
      requires cp <= |line|
      ensures r == Collect(line, cp, wordlen, n)
    {
      var nargs := n;
      var at: nat := cp;
      var wl: nat := wordlen;
      var argv: seq<seq<char>> := [];
      while nargs > 0
        invariant at <= |line| && |argv| + nargs == n
        invariant After(argv, Collect(line, at, wl, nargs)) == Collect(line, cp, wordlen, n)
        decreases nargs
      {
        at := at + Strspn(line, at);
        wl := Strcspn(line, at);
        if wl == 0 {
          return TooFew(n - nargs);
        }
        if wl >= ARGMAX {
          return TooLong;
        }
        AfterAfter(argv, [line[at..at + wl]], Collect(line, at + wl, wl, nargs - 1));
        argv := argv + [line[at..at + wl]];
        nargs := nargs - 1;
        at := at + wl;
      }
      return Args(argv, at, wl);
    }

    /** conf_load over the lines of the file, then the check that a device
        and a remote were both given. */
    method ConfLoad(lines: seq<CString>, aton: Resolver) returns (st: LoadStatus)
      modifies this
      ensures LoadOutcome(st, Snapshot()) == LoadFrom(lines, 0, old(Snapshot()), aton)
    {
      var i: nat := 0;
      while i < |lines|
        invariant i <= |lines|
        invariant LoadFrom(lines, i, Snapshot(), aton) == LoadFrom(lines, 0, old(Snapshot()), aton)
        decreases |lines| - i
      {
        var ls := ConfLine(lines[i], i + 1, aton);
        if ls.Failed? {
          return LineFailed(i + 1);
        } else if ls.Overrun? {
          return Undefined(i + 1);
        }
        i := i + 1;
      }
      if |tunDev| == 0 {
        return NoDev;
      }
      if inRemote == 0 {
        return NoRemote;
      }
      return Loaded;
    }
  }
}
