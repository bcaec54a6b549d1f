/** The text side of the port killer (src/port-killer.tsx): turning the output
    of `lsof -i -P -n | grep LISTEN` into `OpenPort` records, choosing the
    processes to signal for a port, and the list update the UI makes after a
    successful kill. Running `lsof` and `kill`, and the UI, are not modelled:
    the captured standard output is a parameter, and the kill commands are
    returned instead of run. */
module PortKiller {
  import opened Wrappers
  import opened JsString
  import Seqs

  /** One listening socket. `pid` is `None` where `parseInt` gave `NaN`; `port`
      is a JavaScript number, never `NaN` in a listing. */
  datatype OpenPort = OpenPort(
    protocol: string,
    port: int,
    pid: Option<int>,
    process: string,
    user: string,
    address: string)

  // ------------------------------------------------------ address patterns

  predicate EndsWith(s: string, suffix: string)
  {
    |suffix| <= |s| && s[|s| - |suffix|..] == suffix
  }

  /** The address names port digits `g`: it ends in a colon and the non-empty
      digit run `g`, optionally followed by a closing parenthesis. */
  predicate NamesPort(address: string, g: string)
  {
    g != [] && AllDigits(g) && (EndsWith(address, ":" + g) || EndsWith(address, ":" + g + ")"))
  }

  /** The capture group of `/:(\d+)$/`: a colon, then one or more digits that
      end the text. */
  function ColonDigitsAtEnd(s: string): (g: Option<string>)
    ensures g.Some? ==> g.value != [] && AllDigits(g.value) && EndsWith(s, ":" + g.value)
  {
    var d := DigitSuffix(s);
    if d != [] && |d| < |s| && s[|s| - |d| - 1] == ':' then
      assert s[|s| - |d| - 1..] == ":" + d;
      Some(d)
    else None
  }

  /** The capture group of `/:(\d+)\)$/`: a colon, then one or more digits, then
      a closing parenthesis that ends the text. */
  function ColonDigitsParenAtEnd(s: string): (g: Option<string>)
    ensures g.Some? ==> g.value != [] && AllDigits(g.value) && EndsWith(s, ":" + g.value + ")")
  {
    if s != [] && s[|s| - 1] == ')' then
      var g := ColonDigitsAtEnd(s[..|s| - 1]);
      assert g.Some? ==> s == s[..|s| - 1] + ")";
      assert g.Some? ==> s[|s| - |g.value| - 2..] == s[..|s| - 1][|s| - 1 - |g.value| - 1..] + ")";
      g
    else None
  }

  /** `address.match(/:(\d+)\)$/) || address.match(/:(\d+)$/)`, reduced to
      the capture group: the parenthesised form is tried first. */
  function PortDigits(address: string): (g: Option<string>)
    ensures g.Some? ==> NamesPort(address, g.value)
  {
    var m := ColonDigitsParenAtEnd(address);
    if m.Some? then m else ColonDigitsAtEnd(address)
  }

  lemma {:induction false} DigitSuffixOf(x: string, g: string)
    requires AllDigits(g)
    requires x == [] || !IsDigit(x[|x| - 1])
    ensures DigitSuffix(x + g) == g
  {
    if g == [] {
      assert x + g == x;
    } else {
      var g' := g[..|g| - 1];
      assert DigitSuffix(x + g) == DigitSuffix(x + g') + [g[|g| - 1]] by {
        assert (x + g)[..|x + g| - 1] == x + g';
        assert (x + g)[|x + g| - 1] == g[|g| - 1];
      }
      DigitSuffixOf(x, g');
      assert g' + [g[|g| - 1]] == g;
    }
  }

  /** The patterns find every port an address names: whenever the address
      ends in `:digits` or `:digits)`, that digit run is the group. */
  lemma PortDigitsComplete(address: string, g: string)
    requires NamesPort(address, g)
    ensures PortDigits(address) == Some(g)
  {
    if EndsWith(address, ":" + g + ")") {
      var s := address[..|address| - 1];
      assert s == s[..|s| - |g| - 1] + ":" + g;
      DigitSuffixOf(s[..|s| - |g| - 1] + ":", g);
      assert s[..|s| - |g| - 1] + ":" + g == (s[..|s| - |g| - 1] + ":") + g;
    } else {
      var s := address;
      assert s == s[..|s| - |g| - 1] + ":" + g;
      DigitSuffixOf(s[..|s| - |g| - 1] + ":", g);
      assert s[..|s| - |g| - 1] + ":" + g == (s[..|s| - |g| - 1] + ":") + g;
      assert IsDigit(address[|address| - 1]);
    }
  }

  // --------------------------------------------------------- one line

  /** The body of the loop of `listOpenPorts` for one kept line, as a value:
      split on white space, reject fewer than nine fields, pick the fields by
      column and keep the record only when the address yields a port. */
  function ParseLine(line: string): Option<OpenPort>
  {
    var parts := SplitWs(line);
    if |parts| < 9 then None
    else
      var address := parts[8];
      var group := PortDigits(address);
      var port := if group.Some? then ParseInt(group.value) else None;
      if port.None? then None
      else Some(OpenPort(parts[7], port.value, ParseInt(parts[1]), parts[0], parts[2], address))
  }

  /** `ParseLine` stage by stage, given the port that the address yields. */
  lemma ParseLineFields(line: string, port: Option<int>)
    requires |SplitWs(line)| >= 9
    requires var g := PortDigits(SplitWs(line)[8]);
      port == if g.Some? then ParseInt(g.value) else None
    ensures var parts := SplitWs(line);
      ParseLine(line) == if port.None? then None
        else Some(OpenPort(parts[7], port.value, ParseInt(parts[1]), parts[0], parts[2], parts[8]))
  {
  }

  /** What a record from one line holds: the line has at least nine fields,
      the record's fields are fields 7, 1 (parsed), 0, 2 and 8, and its port is
      the non-negative value of the digit run that field 8 ends with. */
  lemma ParseLineSound(line: string)
    requires ParseLine(line).Some?
    ensures var parts, r := SplitWs(line), ParseLine(line).value;
      && |parts| >= 9
      && r.protocol == parts[7] && r.pid == ParseInt(parts[1]) && r.process == parts[0]
      && r.user == parts[2] && r.address == parts[8]
      && r.port >= 0
      && exists g :: NamesPort(r.address, g) && r.port == DecimalValue(g)
  {
    var parts := SplitWs(line);
    var g := PortDigits(parts[8]).value;
    ParseIntAllDigits(g);
  }

  /** A line with at least nine fields whose field 8 names a port always
      yields a record, whether or not field 1 parses as a pid. */
  lemma ParseLineComplete(line: string, g: string)
    requires |SplitWs(line)| >= 9 && NamesPort(SplitWs(line)[8], g)
    ensures var parts := SplitWs(line);
      ParseLine(line) == Some(OpenPort(parts[7], DecimalValue(g), ParseInt(parts[1]), parts[0], parts[2], parts[8]))
  {
    var parts := SplitWs(line);
    PortDigitsComplete(parts[8], g);
    ParseIntAllDigits(g);
  }

  // ----------------------------------------------------------- listing

  /** The filter of `listOpenPorts`: a trimmed line is kept when it is
      non-empty and does not start with `COMMAND`. */
  predicate IsDataLine(line: string)
  {
    line != [] && !StartsWith(line, "COMMAND")
  }

  /** `stdout.split("\n").map(trim).filter(...)`. */
  function DataLines(stdout: string): seq<string>
  {
    Seqs.Filter(Seqs.Map(SplitLines(stdout), Trim), IsDataLine)
  }

  /** The records `listOpenPorts` returns for the captured output `stdout`. */
  function Listing(stdout: string): seq<OpenPort>
  {
    Seqs.FilterMap(DataLines(stdout), ParseLine)
  }

  /** `listOpenPorts` once `lsof` has printed `stdout`: the line pipeline, then
      a loop that pushes one record per line whose address yields a port. */
  method ListOpenPorts(stdout: string) returns (result: seq<OpenPort>)
    ensures result == Listing(stdout)
  {
    var lines := DataLines(stdout);
    result := ParseDataLines(lines);
  }

  /** The `for (const line of lines)` loop of `listOpenPorts`: split each kept
      line into fields, skip it when there are fewer than nine, match the port
      pattern on field 8 and push a record when it yields a number. */
  method ParseDataLines(lines: seq<string>) returns (result: seq<OpenPort>)
    ensures result == Seqs.FilterMap(lines, ParseLine)
  {
    result := [];
    for i := 0 to |lines|
      invariant result == Seqs.FilterMap(lines[..i], ParseLine)
    {
      var line := lines[i];
      assert Seqs.FilterMap(lines[..i + 1], ParseLine)
          == result + (if ParseLine(line).Some? then [ParseLine(line).value] else []) by {
        assert lines[..i + 1] == lines[..i] + [line];
        Seqs.FilterMapSnoc(lines[..i], line, ParseLine);
      }
      var parts := SplitWs(line);
      if |parts| < 9 {
        assert ParseLine(line) == None;
        continue;
      }
      var process := parts[0];
      var pid := ParseInt(parts[1]);
      var user := parts[2];
      var proto := parts[7];
      var addressField := parts[8];
      var portMatch := ColonDigitsParenAtEnd(addressField);
      if portMatch.None? {
        portMatch := ColonDigitsAtEnd(addressField);
      }
      assert portMatch == PortDigits(addressField);
      var port := if portMatch.Some? then ParseInt(portMatch.value) else None;
      ParseLineFields(line, port);
      if port.Some? {
        assert ParseLine(line) == Some(OpenPort(proto, port.value, pid, process, user, addressField));
        result := result + [OpenPort(proto, port.value, pid, process, user, addressField)];
      }
    }
    assert lines[..|lines|] == lines;
  }

  /** The record that one raw output line contributes, if any: the line is
      trimmed, must pass the filter, and must parse. */
  function LineRecord(raw: string): Option<OpenPort>
  {
    var line := Trim(raw);
    if IsDataLine(line) then ParseLine(line) else None
  }

  lemma {:induction false} RecordsOfLines(raws: seq<string>)
    ensures Seqs.FilterMap(Seqs.Filter(Seqs.Map(raws, Trim), IsDataLine), ParseLine)
         == Seqs.FilterMap(raws, LineRecord)
  {
    if raws != [] {
      var init, last := raws[..|raws| - 1], raws[|raws| - 1];
      assert raws == init + [last];
      RecordsOfLines(init);
      Seqs.MapConcat(init, [last], Trim);
      assert Seqs.Map([last], Trim) == [Trim(last)];
      Seqs.FilterConcat(Seqs.Map(init, Trim), [Trim(last)], IsDataLine);
      Seqs.FilterSingleton(Trim(last), IsDataLine);
      var kept := Seqs.Filter(Seqs.Map(init, Trim), IsDataLine);
      if IsDataLine(Trim(last)) {
        Seqs.FilterMapSnoc(kept, Trim(last), ParseLine);
      } else {
        assert kept + [] == kept;
      }
      Seqs.FilterMapSnoc(init, last, LineRecord);
    }
  }

  /** The listing is the records of the output's lines, line by line. */
  lemma ListingByLine(stdout: string)
    ensures Listing(stdout) == Seqs.FilterMap(SplitLines(stdout), LineRecord)
  {
    RecordsOfLines(SplitLines(stdout));
  }

  /** What one raw line contributes: only a line that is not blank, does not
      start with `COMMAND` after trimming, and has at least nine fields yields a
      record, and that record holds its fields 7, 1 (parsed), 0, 2 and 8 and the
      non-negative port its field 8 names. */
  lemma LineRecordSound(raw: string)
    requires LineRecord(raw).Some?
    ensures var line, r := Trim(raw), LineRecord(raw).value;
      var parts := SplitWs(line);
      && !AllSpace(raw) && !StartsWith(line, "COMMAND")
      && |parts| >= 9
      && r.protocol == parts[7] && r.pid == ParseInt(parts[1]) && r.process == parts[0]
      && r.user == parts[2] && r.address == parts[8]
      && r.port >= 0
      && exists g :: NamesPort(r.address, g) && r.port == DecimalValue(g)
  {
    ParseLineSound(Trim(raw));
  }

  /** Every record of the listing comes from one line of the output. */
  lemma ListingOrigin(stdout: string, r: OpenPort)
    requires r in Listing(stdout)
    ensures exists i :: 0 <= i < |SplitLines(stdout)| && LineRecord(SplitLines(stdout)[i]) == Some(r)
  {
    ListingByLine(stdout);
    Seqs.FilterMapOrigin(SplitLines(stdout), LineRecord, r);
  }

  /** Every line of the output that yields a record has it in the listing, and
      the listing is never longer than the output has lines. */
  lemma ListingComplete(stdout: string, i: nat)
    requires i < |SplitLines(stdout)| && LineRecord(SplitLines(stdout)[i]).Some?
    ensures LineRecord(SplitLines(stdout)[i]).value in Listing(stdout)
    ensures |Listing(stdout)| <= |SplitLines(stdout)|
  {
    ListingByLine(stdout);
    Seqs.FilterMapComplete(SplitLines(stdout), LineRecord, i);
  }

  /** Each line yields at most one record, so the listing is never longer
      than the output has lines. */
  lemma ListingLength(stdout: string)
    ensures |Listing(stdout)| <= |SplitLines(stdout)|
  {
    ListingByLine(stdout);
  }

  /** Records keep the order of their lines: output made of two parts joined
      by a line feed lists the first part's records, then the second's. */
  lemma ListingConcat(a: string, b: string)
    ensures Listing(a + "\n" + b) == Listing(a) + Listing(b)
  {
    SplitLinesConcat(a, b);
    ListingByLine(a + "\n" + b);
    ListingByLine(a);
    ListingByLine(b);
    Seqs.FilterMapConcat(SplitLines(a), SplitLines(b), LineRecord);
  }

  /** A single line lists at most its own record. */
  lemma ListingOneLine(raw: string)
    requires '\n' !in raw
    ensures Listing(raw) == if LineRecord(raw).Some? then [LineRecord(raw).value] else []
  {
    assert Join([raw], "\n") == raw;
    SplitJoinLines([raw]);
    ListingByLine(raw);
    Seqs.FilterMapSingleton(raw, LineRecord);
  }

  /** Empty output (also what `|| true` leaves when `lsof` fails) lists
      nothing. */
  lemma ListingEmpty()
    ensures Listing("") == []
  {
    ListingOneLine("");
    assert AllSpace("");
  }

  /** A column separator of `lsof` output: a non-empty run of white space
      that stays within one line. */
  predicate Padding(sep: string)
  {
    sep != [] && AllSpace(sep) && '\n' !in sep
  }

  lemma {:induction false} JoinRunsOneLine(words: seq<string>, seps: seq<string>)
    requires |words| >= 1 && |seps| == |words| - 1
    requires forall i :: 0 <= i < |words| ==> NoSpace(words[i])
    requires forall i :: 0 <= i < |seps| ==> Padding(seps[i])
    ensures '\n' !in JoinRuns(words, seps)
  {
    assert '\n' !in words[0] by {
      assert IsSpace('\n');
    }
    if |words| > 1 {
      JoinRunsOneLine(words[1..], seps[1..]);
      assert JoinRuns(words, seps) == words[0] + seps[0] + JoinRuns(words[1..], seps[1..]);
    }
  }

  lemma {:induction false} JoinRunsLast(words: seq<string>, seps: seq<string>)
    requires |words| >= 1 && |seps| == |words| - 1 && words[|words| - 1] != []
    ensures JoinRuns(words, seps) != []
    ensures JoinRuns(words, seps)[|JoinRuns(words, seps)| - 1] == words[|words| - 1][|words[|words| - 1]| - 1]
  {
    if |words| > 1 {
      JoinRunsLast(words[1..], seps[1..]);
    }
  }

  /** With white space after the first word, the line starts with a prefix
      free of white space exactly when its first word does. */
  lemma StartsWithJoinRuns(words: seq<string>, seps: seq<string>, p: string)
    requires |words| >= 1 && |seps| == |words| - 1
    requires NoSpace(words[0]) && NoSpace(p)
    requires forall i :: 0 <= i < |seps| ==> Padding(seps[i])
    ensures StartsWith(JoinRuns(words, seps), p) <==> StartsWith(words[0], p)
  {
    var j := JoinRuns(words, seps);
    if |words| > 1 {
      assert j == words[0] + seps[0] + JoinRuns(words[1..], seps[1..]);
      if |words[0]| >= |p| {
        assert j[..|p|] == words[0][..|p|];
      } else if |p| <= |j| {
        assert j[..|p|][|words[0]|] == seps[0][0];
        assert !IsSpace(p[|words[0]|]);
      }
    }
  }

  /** Words separated by padding form one line that needs no trimming. */
  lemma PaddedLine(words: seq<string>, seps: seq<string>)
    requires |words| >= 1 && |seps| == |words| - 1
    requires forall i :: 0 <= i < |words| ==> words[i] != [] && NoSpace(words[i])
    requires forall i :: 0 <= i < |seps| ==> Padding(seps[i])
    ensures JoinRuns(words, seps) != [] && Trimmed(JoinRuns(words, seps)) && '\n' !in JoinRuns(words, seps)
  {
    JoinRunsOneLine(words, seps);
    JoinRunsHead(words, seps);
    JoinRunsLast(words, seps);
  }

  lemma CommandNoSpace()
    ensures NoSpace("COMMAND")
  {
    assert Printable("COMMAND");
    PrintableNoSpace("COMMAND");
  }

  /** Any single line of output that survives the filter, has at least nine
      fields after `split(/\s+/)`, and whose field 8 names a port lists exactly
      one record, built from those fields, whether or not field 1 parses as a
      pid. */
  lemma ListingWellFormedLine(raw: string, g: string)
    requires '\n' !in raw
    requires IsDataLine(Trim(raw))
    requires |SplitWs(Trim(raw))| >= 9 && NamesPort(SplitWs(Trim(raw))[8], g)
    ensures var p := SplitWs(Trim(raw));
      Listing(raw) == [OpenPort(p[7], DecimalValue(g), ParseInt(p[1]), p[0], p[2], p[8])]
  {
    ParseLineComplete(Trim(raw), g);
    ListingOneLine(raw);
  }

  /** A column-padded `lsof` line (at least nine non-empty fields separated by
      runs of blanks of any length, a first field not beginning with
      `COMMAND`, a field 8 that names a port) lists exactly the record of
      those fields. */
  lemma ListingPaddedLine(words: seq<string>, seps: seq<string>, g: string)
    requires |words| >= 9 && |seps| == |words| - 1
    requires forall i :: 0 <= i < |words| ==> words[i] != [] && NoSpace(words[i])
    requires forall i :: 0 <= i < |seps| ==> Padding(seps[i])
    requires !StartsWith(words[0], "COMMAND")
    requires NamesPort(words[8], g)
    ensures Listing(JoinRuns(words, seps))
         == [OpenPort(words[7], DecimalValue(g), ParseInt(words[1]), words[0], words[2], words[8])]
  {
    var line := JoinRuns(words, seps);
    PaddedLine(words, seps);
    assert Trim(line) == line;
    CommandNoSpace();
    StartsWithJoinRuns(words, seps, "COMMAND");
    SplitWsJoinRuns(words, seps);
    ListingWellFormedLine(line, g);
  }

  /** A line whose process name merely begins with `COMMAND` is dropped like
      the header: the filter tests the start of the whole line. */
  lemma ListingDropsCommandPrefixedProcess(words: seq<string>, seps: seq<string>)
    requires |words| >= 1 && |seps| == |words| - 1
    requires forall i :: 0 <= i < |words| ==> words[i] != [] && NoSpace(words[i])
    requires forall i :: 0 <= i < |seps| ==> Padding(seps[i])
    requires StartsWith(words[0], "COMMAND")
    ensures Listing(JoinRuns(words, seps)) == []
  {
    var line := JoinRuns(words, seps);
    PaddedLine(words, seps);
    assert Trim(line) == line;
    CommandNoSpace();
    StartsWithJoinRuns(words, seps, "COMMAND");
    ListingOneLine(line);
  }

  predicate Printable(s: string)
  {
    forall i :: 0 <= i < |s| ==> '!' <= s[i] <= '~'
  }

  lemma PrintableNoSpace(s: string)
    requires Printable(s)
    ensures NoSpace(s)
  {
  }

  lemma BlanksPadding(s: string)
    requires s != [] && forall i :: 0 <= i < |s| ==> s[i] == ' '
    ensures Padding(s)
  {
  }

  lemma NodeExampleFields(words: seq<string>)
    requires words == ["node", "1234", "alice", "22u", "IPv4", "0x1", "0t0", "TCP", "127.0.0.1:8080", "(LISTEN)"]
    ensures forall i :: 0 <= i < |words| ==> words[i] != [] && NoSpace(words[i])
    ensures NamesPort(words[8], "8080") && !StartsWith(words[0], "COMMAND")
  {
    forall i | 0 <= i < |words| ensures words[i] != [] && NoSpace(words[i]) {
      assert Printable(words[i]);
      PrintableNoSpace(words[i]);
    }
    assert words[8] == "127.0.0.1" + ":" + "8080";
  }

  lemma NodeExamplePadding(seps: seq<string>)
    requires seps == ["   ", " ", "  ", "  ", " ", "     ", " ", " ", " "]
    ensures forall i :: 0 <= i < |seps| ==> Padding(seps[i])
  {
    forall i | 0 <= i < |seps| ensures Padding(seps[i]) {
      BlanksPadding(seps[i]);
    }
  }

  lemma NodeExampleNumbers()
    ensures DecimalValue("8080") == 8080 && ParseInt("1234") == Some(1234)
  {
    assert ToDecimal(8080) == "8080";
    assert FormatInt(1234) + [] == "1234";
    ParseFormatInt(1234, []);
  }

  /** The scenario of a `node` process listening on 127.0.0.1:8080, in the
      column-padded form `lsof` prints:
      `node   1234 alice  22u  IPv4 0x1     0t0 TCP 127.0.0.1:8080 (LISTEN)`. */
  lemma ListingNodeExample()
    ensures Listing(JoinRuns(["node", "1234", "alice", "22u", "IPv4", "0x1", "0t0", "TCP", "127.0.0.1:8080", "(LISTEN)"],
                             ["   ", " ", "  ", "  ", " ", "     ", " ", " ", " "]))
         == [OpenPort("TCP", 8080, Some(1234), "node", "alice", "127.0.0.1:8080")]
  {
    var words := ["node", "1234", "alice", "22u", "IPv4", "0x1", "0t0", "TCP", "127.0.0.1:8080", "(LISTEN)"];
    var seps := ["   ", " ", "  ", "  ", " ", "     ", " ", " ", " "];
    NodeExampleFields(words);
    NodeExamplePadding(seps);
    NodeExampleNumbers();
    ListingPaddedLine(words, seps, "8080");
  }

  /** The `lsof` header line on its own lists nothing. */
  lemma ListingHeaderOnly()
    ensures Listing(JoinRuns(["COMMAND", "PID", "USER", "FD", "TYPE", "DEVICE", "SIZE/OFF", "NODE", "NAME"],
                             ["     ", "  ", "   ", "   ", "             ", " ", " ", " "])) == []
  {
    var words := ["COMMAND", "PID", "USER", "FD", "TYPE", "DEVICE", "SIZE/OFF", "NODE", "NAME"];
    var seps := ["     ", "  ", "   ", "   ", "             ", " ", " ", " "];
    forall i | 0 <= i < |words| ensures words[i] != [] && NoSpace(words[i]) {
      assert Printable(words[i]);
      PrintableNoSpace(words[i]);
    }
    forall i | 0 <= i < |seps| ensures Padding(seps[i]) {
      BlanksPadding(seps[i]);
    }
    assert StartsWith(words[0], "COMMAND");
    ListingDropsCommandPrefixedProcess(words, seps);
  }

  // ------------------------------------------------------------- killing

  /** The error `killProcessByPort` throws when nothing listens on the port. */
  datatype KillError = NoProcessFound(port: int)

  /** The error's message, `No process found on port ${port}`. */
  function Message(e: KillError): string
  {
    "No process found on port " + FormatInt(e.port)
  }

  /** `ports.filter((p) => p.port === port)`. */
  function Targets(ports: seq<OpenPort>, port: int): seq<OpenPort>
  {
    Seqs.Filter(ports, (p: OpenPort) => p.port == port)
  }

  /** The command run for one target, `kill -9 ${target.pid}`; a pid that did
      not parse renders as `NaN`. */
  function KillCommand(pid: Option<int>): string
  {
    "kill -9 " + (if pid.Some? then FormatInt(pid.value) else "NaN")
  }

  /** `killProcessByPort(port)` when a fresh `lsof` prints `stdout`. It fails,
      without a kill, exactly when no listed record is on `port`; otherwise it
      issues one `kill -9` per record on `port`, in listing order, duplicates
      included. `signalDelivered(i)` is what the `i`-th kill reports; it is read
      and discarded, so neither the commands issued nor the outcome depend on
      it. */
  method KillProcessByPort(stdout: string, port: int, signalDelivered: nat -> bool)
    returns (outcome: Outcome<KillError>, issued: seq<string>)
    ensures outcome.Fail? <==> forall k :: 0 <= k < |Listing(stdout)| ==> Listing(stdout)[k].port != port
    ensures outcome.Fail? ==> outcome.error == NoProcessFound(port) && issued == []
    ensures outcome.Pass? ==> var targets := Targets(Listing(stdout), port);
      |issued| == |targets| && forall k :: 0 <= k < |issued| ==> issued[k] == KillCommand(targets[k].pid)
  {
    var ports := ListOpenPorts(stdout);
    var targets := Targets(ports, port);
    TargetsNone(ports, port);
    if |targets| == 0 {
      return Fail(NoProcessFound(port)), [];
    }
    issued := KillEach(targets, signalDelivered);
    outcome := Pass;
  }

  /** The `for (const target of targets)` loop of `killProcessByPort`: one
      `kill -9` per target, in order; `signalDelivered(i)` says whether the
      `i`-th one succeeded. */
  method KillEach(targets: seq<OpenPort>, signalDelivered: nat -> bool) returns (issued: seq<string>)
    ensures |issued| == |targets|
    ensures forall k :: 0 <= k < |issued| ==> issued[k] == KillCommand(targets[k].pid)
  {
    issued := [];
    for i := 0 to |targets|
      invariant |issued| == i
      invariant forall k :: 0 <= k < i ==> issued[k] == KillCommand(targets[k].pid)
    {
      issued := issued + [KillCommand(targets[i].pid)];
      // `.catch(() => null)`: a failed kill neither stops the loop nor
      // changes the outcome.
      var delivered := signalDelivered(i);
    }
  }

  /** The targets are exactly the records on the port. */
  lemma TargetsMembers(ports: seq<OpenPort>, port: int)
    ensures forall i :: 0 <= i < |Targets(ports, port)| ==>
      Targets(ports, port)[i] in ports && Targets(ports, port)[i].port == port
    ensures forall i :: 0 <= i < |ports| && ports[i].port == port ==> ports[i] in Targets(ports, port)
  {
    Seqs.FilterMembers(ports, (p: OpenPort) => p.port == port);
  }

  /** There are no targets exactly when no record is on the port. */
  lemma TargetsNone(ports: seq<OpenPort>, port: int)
    ensures Targets(ports, port) == [] <==> forall k :: 0 <= k < |ports| ==> ports[k].port != port
  {
    TargetsMembers(ports, port);
    if Targets(ports, port) != [] {
      assert Targets(ports, port)[0] in ports;
    }
  }

  /** Targets keep the listing's order. */
  lemma TargetsConcat(a: seq<OpenPort>, b: seq<OpenPort>, port: int)
    ensures Targets(a + b, port) == Targets(a, port) + Targets(b, port)
  {
    Seqs.FilterConcat(a, b, (p: OpenPort) => p.port == port);
  }

  /** When every listed record is on the port, every one of them is a target,
      duplicates and listing order included: two processes on port 3000 get
      two kills. */
  lemma {:induction false} TargetsAllOnPort(ports: seq<OpenPort>, port: int)
    requires forall k :: 0 <= k < |ports| ==> ports[k].port == port
    ensures Targets(ports, port) == ports
  {
    if ports != [] {
      var init := ports[..|ports| - 1];
      TargetsAllOnPort(init, port);
      assert init + [ports[|ports| - 1]] == ports;
    }
  }

  /** A kill command names its pid: what follows `kill -9 ` parses back to the
      pid, and to `NaN` when the pid did not parse. */
  lemma KillCommandNamesPid(pid: Option<int>)
    ensures |KillCommand(pid)| > 8 && ParseInt(KillCommand(pid)[8..]) == pid
  {
    if pid.Some? {
      assert KillCommand(pid)[8..] == FormatInt(pid.value) + [];
      ParseFormatInt(pid.value, []);
    } else {
      assert KillCommand(pid)[8..] == "NaN";
      TrimStartNoop("NaN");
    }
  }

  /** The error carries the port it was asked about. */
  lemma MessageNamesPort(e: KillError)
    ensures |Message(e)| > 25 && ParseInt(Message(e)[25..]) == Some(e.port)
  {
    assert Message(e)[25..] == FormatInt(e.port) + [];
    ParseFormatInt(e.port, []);
  }

  // -------------------------------------------------- optimistic update

  /** The list the UI keeps after a successful kill,
      `prev.filter((p) => p.port !== port)`. */
  function RemovePort(displayed: seq<OpenPort>, port: int): seq<OpenPort>
  {
    Seqs.Filter(displayed, (p: OpenPort) => p.port != port)
  }

  /** The optimistic update removes every record on the killed port and keeps
      every other record, in order. */
  lemma RemovePortMembers(displayed: seq<OpenPort>, port: int)
    ensures forall i :: 0 <= i < |RemovePort(displayed, port)| ==>
      RemovePort(displayed, port)[i] in displayed && RemovePort(displayed, port)[i].port != port
    ensures forall i :: 0 <= i < |displayed| && displayed[i].port != port ==>
      displayed[i] in RemovePort(displayed, port)
    ensures Targets(RemovePort(displayed, port), port) == []
  {
    Seqs.FilterMembers(displayed, (p: OpenPort) => p.port != port);
    TargetsNone(RemovePort(displayed, port), port);
  }

  /** The optimistic update keeps the displayed order. */
  lemma RemovePortConcat(a: seq<OpenPort>, b: seq<OpenPort>, port: int)
    ensures RemovePort(a + b, port) == RemovePort(a, port) + RemovePort(b, port)
  {
    Seqs.FilterConcat(a, b, (p: OpenPort) => p.port != port);
  }

  /** The records the kill targets and the records the update keeps split the
      list between them: one `kill -9` per removed record. */
  lemma TargetsAndRemovePortPartition(ports: seq<OpenPort>, port: int)
    ensures multiset(Targets(ports, port)) + multiset(RemovePort(ports, port)) == multiset(ports)
    ensures |Targets(ports, port)| + |RemovePort(ports, port)| == |ports|
  {
    Seqs.FilterPartition(ports, (p: OpenPort) => p.port == port, (p: OpenPort) => p.port != port);
  }
}
