/** Quoting of a command line, against the quoting rules of sections 2.2.1 and 2.2.2 of the POSIX shell language. */
module ShellQuoting {
  import opened Options

  // ---- The printer ----

  const QUOTE := '\''
  const BACKSLASH := '\\'

  /** Every single quote becomes close-quote, escaped quote, open-quote. */
  function EscapeQuotes(s: string): string {
    if s == "" then ""
    else (if s[0] == QUOTE then [QUOTE, BACKSLASH, QUOTE, QUOTE] else [s[0]]) + EscapeQuotes(s[1..])
  }

  function ShellQuote(s: string): string {
    [QUOTE] + EscapeQuotes(s) + [QUOTE]
  }

  function Join(words: seq<string>): string {
    if words == [] then ""
    else if |words| == 1 then words[0]
    else Join(words[..|words| - 1]) + " " + words[|words| - 1]
  }

  // ---- The reader ----

  datatype Mode = Plain | Escaped | Quoted

  /** Finished words, the word being read if one has begun, and the quoting mode. */
  datatype Reader = Reader(words: seq<string>, current: Option<string>, mode: Mode)

  /** Characters with a meaning of their own outside quotes. */
  predicate Special(c: char) {
    || c == '|' || c == '&' || c == ';' || c == '<' || c == '>' || c == '(' || c == ')' || c == '$' || c == '`'
    || c == BACKSLASH || c == '\"' || c == QUOTE || c == ' ' || c == '\t' || c == '\n'
    || c == '*' || c == '?' || c == '[' || c == '#' || c == '~' || c == '=' || c == '%'
    || c == '{' || c == '}' || c == '!' || c == '^'
  }

  predicate Blank(c: char) {
    c == ' ' || c == '\t'
  }

  function Extend(current: Option<string>, c: char): Option<string> {
    Some((if current.Some? then current.value else "") + [c])
  }

  /** One character; None when an unquoted character would need more of the shell than quoting. */
  function Read(r: Reader, c: char): Option<Reader> {
    match r.mode
    case Quoted =>
      if c == QUOTE then Some(r.(mode := Plain)) else Some(r.(current := Extend(r.current, c)))
    case Escaped =>
      if c == '\n' then None else Some(r.(current := Extend(r.current, c), mode := Plain))
    case Plain =>
      if c == QUOTE then Some(r.(mode := Quoted, current := if r.current.Some? then r.current else Some("")))
      else if c == BACKSLASH then Some(r.(mode := Escaped))
      else if Blank(c) then
        Some(if r.current.Some? then r.(words := r.words + [r.current.value], current := None) else r)
      else if Special(c) then None
      else Some(r.(current := Extend(r.current, c)))
  }

  function ReadAll(r: Reader, s: string): Option<Reader>
    decreases |s|
  {
    if s == "" then Some(r) else
    var next := Read(r, s[0]);
    if next.None? then None else ReadAll(next.value, s[1..])
  }

  /** The words of a command line, or None for an unfinished quote or anything beyond quoting. */
  function Tokenize(s: string): Option<seq<string>> {
    var r := ReadAll(Reader([], None, Plain), s);
    if r.None? || r.value.mode != Plain then None
    else Some(r.value.words + (if r.value.current.Some? then [r.value.current.value] else []))
  }

  // ---- Quoting is inverted by reading ----

  lemma {:induction false} ReadAppend(r: Reader, a: string, b: string)
    requires ReadAll(r, a).Some?
    ensures ReadAll(r, a + b) == ReadAll(ReadAll(r, a).value, b)
    decreases |a|
  {
    if a == "" {
      assert a + b == b;
    } else {
      assert (a + b)[0] == a[0] && (a + b)[1..] == a[1..] + b;
      ReadAppend(Read(r, a[0]).value, a[1..], b);
    }
  }

  lemma ReadOne(r: Reader, c: char)
    ensures ReadAll(r, [c]) == Read(r, c)
  {
    assert [c][1..] == "";
  }

  lemma {:induction false} ReadEscaped(r: Reader, s: string)
    requires r.mode == Quoted && r.current.Some?
    ensures ReadAll(r, EscapeQuotes(s)) == Some(r.(current := Some(r.current.value + s)))
    decreases |s|
  {
    if s == "" {
      assert r.current.value + s == r.current.value;
    } else {
      var head := if s[0] == QUOTE then [QUOTE, BACKSLASH, QUOTE, QUOTE] else [s[0]];
      var r' := r.(current := Some(r.current.value + [s[0]]));
      ReadHead(r, s[0]);
      ReadAppend(r, head, EscapeQuotes(s[1..]));
      ReadEscaped(r', s[1..]);
      assert r.current.value + [s[0]] + s[1..] == r.current.value + s;
    }
  }

  lemma ReadHead(r: Reader, c: char)
    requires r.mode == Quoted && r.current.Some?
    ensures ReadAll(r, if c == QUOTE then [QUOTE, BACKSLASH, QUOTE, QUOTE] else [c]) ==
            Some(r.(current := Some(r.current.value + [c])))
  {
    if c == QUOTE {
      var r1 := r.(mode := Plain);
      var r2 := r.(mode := Escaped);
      var r3 := r.(mode := Plain, current := Some(r.current.value + [c]));
      assert [QUOTE, BACKSLASH, QUOTE, QUOTE][1..] == [BACKSLASH, QUOTE, QUOTE];
      assert [BACKSLASH, QUOTE, QUOTE][1..] == [QUOTE, QUOTE];
      assert [QUOTE, QUOTE][1..] == [QUOTE];
      ReadOne(r3, QUOTE);
      assert ReadAll(r2, [QUOTE, QUOTE]) == ReadAll(r3, [QUOTE]);
      assert ReadAll(r1, [BACKSLASH, QUOTE, QUOTE]) == ReadAll(r2, [QUOTE, QUOTE]);
    } else {
      ReadOne(r, c);
    }
  }

  /** Reading a quoted string from between words yields exactly that string as the current word. */
  lemma ReadQuoted(r: Reader, s: string)
    requires r.mode == Plain && r.current.None?
    ensures ReadAll(r, ShellQuote(s)) == Some(r.(current := Some(s)))
  {
    var open := r.(mode := Quoted, current := Some(""));
    ReadOne(r, QUOTE);
    ReadAppend(r, [QUOTE], EscapeQuotes(s) + [QUOTE]);
    assert ShellQuote(s) == [QUOTE] + (EscapeQuotes(s) + [QUOTE]);
    ReadEscaped(open, s);
    ReadAppend(open, EscapeQuotes(s), [QUOTE]);
    assert "" + s == s;
    ReadOne(open.(current := Some(s)), QUOTE);
  }

  /** For every string the quoted form is read back as that single word. */
  lemma QuoteRoundTrip(s: string)
    ensures Tokenize(ShellQuote(s)) == Some([s])
  {
    hide ReadAll, ShellQuote;
    ReadQuoted(Reader([], None, Plain), s);
    assert [] + [s] == [s];
  }

  // ---- Command lines ----

  predicate PlainWord(s: string) {
    s != "" && forall i :: 0 <= i < |s| ==> !Special(s[i])
  }

  /** A printed argument stands for a value: verbatim when plain, or quoted. */
  predicate Prints(printed: string, value: string) {
    (PlainWord(value) && printed == value) || printed == ShellQuote(value)
  }

  lemma {:induction false} ReadPlain(r: Reader, s: string)
    requires r.mode == Plain && (forall i :: 0 <= i < |s| ==> !Special(s[i])) && (r.current.Some? || s != "")
    ensures ReadAll(r, s) == Some(r.(current := Some((if r.current.Some? then r.current.value else "") + s)))
    decreases |s|
  {
    var w := if r.current.Some? then r.current.value else "";
    if s == "" {
      assert w + s == w;
    } else {
      var r' := r.(current := Some(w + [s[0]]));
      assert Read(r, s[0]) == Some(r') by {
        assert !Special(s[0]);
      }
      ReadPlain(r', s[1..]);
      assert w + [s[0]] + s[1..] == w + s;
    }
  }

  lemma ReadPrinted(r: Reader, printed: string, value: string)
    requires r.mode == Plain && r.current.None? && Prints(printed, value)
    ensures ReadAll(r, printed) == Some(r.(current := Some(value)))
  {
    if printed == ShellQuote(value) {
      ReadQuoted(r, value);
    } else {
      ReadPlain(r, value);
      assert "" + value == value;
    }
  }

  /** A joined command line is read back as the intended argument list. */
  lemma {:induction false} JoinRoundTrip(printed: seq<string>, values: seq<string>)
    requires |printed| == |values| > 0
    requires forall i :: 0 <= i < |printed| ==> Prints(printed[i], values[i])
    ensures ReadAll(Reader([], None, Plain), Join(printed)) ==
            Some(Reader(values[..|values| - 1], Some(values[|values| - 1]), Plain))
    ensures Tokenize(Join(printed)) == Some(values)
  {
    hide ReadAll, Prints;
    var n := |printed| - 1;
    var start := Reader([], None, Plain);
    if n == 0 {
      ReadPrinted(start, printed[0], values[0]);
      assert values[..0] == [];
    } else {
      JoinRoundTrip(printed[..n], values[..n]);
      var front := Join(printed[..n]);
      var mid := Reader(values[..n][..n - 1], Some(values[n - 1]), Plain);
      var next := Reader(values[..n], None, Plain);
      assert values[..n][..n - 1] + [values[n - 1]] == values[..n];
      ReadOne(mid, ' ');
      assert ReadAll(mid, " ") == Some(next);
      ReadAppend(start, front, " ");
      ReadAppend(start, front + " ", printed[n]);
      ReadPrinted(next, printed[n], values[n]);
      assert Join(printed) == (front + " ") + printed[n];
    }
    assert values[..n] + [values[n]] == values;
  }

  // ---- The OSD-create command ----

  datatype OsdRequest = OsdRequest(dev: string, dbDev: string, walDev: string, dbDevSize: int, walDevSize: int,
                                   encrypted: bool, crushClass: string, osdsPerDevice: int)

  function Digit(d: nat): char
    requires d < 10
  {
    '0' + d as char
  }

  /** Decimal digits of a positive number. */
  function Itoa(n: nat): (s: string)
    requires n > 0
    ensures PlainWord(s)
  {
    if n < 10 then [Digit(n)] else Itoa(n / 10) + [Digit(n % 10)]
  }

  function Atoi(s: string): int {
    if s == "" then 0 else 10 * Atoi(s[..|s| - 1]) + (s[|s| - 1] as int - '0' as int)
  }

  lemma {:induction false} ItoaValue(n: nat)
    requires n > 0
    ensures Atoi(Itoa(n)) == n
  {
    if n >= 10 {
      ItoaValue(n / 10);
      assert Itoa(n)[..|Itoa(n)| - 1] == Itoa(n / 10);
    } else {
      assert Itoa(n)[..0] == "";
    }
  }

  /** Decimal form of a size; only positive sizes are printed. */
  function Number(n: int): (s: string)
    ensures PlainWord(s)
  {
    if n > 0 then Itoa(n) else "0"
  }

  /** The argument list the request means. */
  function Intended(q: OsdRequest): seq<string> {
    ["pveceph", "osd", "create", q.dev]
    + Given(q.dbDev != "", "--db_dev", q.dbDev)
    + Given(q.walDev != "", "--wal_dev", q.walDev)
    + Given(q.dbDevSize > 0, "--db_dev_size", Number(q.dbDevSize))
    + Given(q.walDevSize > 0, "--wal_dev_size", Number(q.walDevSize))
    + Given(q.encrypted, "--encrypted", "1")
    + Given(q.crushClass != "", "--crush-device-class", q.crushClass)
    + Given(q.osdsPerDevice > 0, "--osds_per_device", Number(q.osdsPerDevice))
  }

  ghost predicate PrintsAll(printed: seq<string>, values: seq<string>) {
    |printed| == |values| && forall i :: 0 <= i < |printed| ==> Prints(printed[i], values[i])
  }

  lemma FlagsArePlain()
    ensures PlainWord("pveceph") && PlainWord("osd") && PlainWord("create") && PlainWord("--db_dev") && PlainWord("--wal_dev")
    ensures PlainWord("--db_dev_size") && PlainWord("--wal_dev_size") && PlainWord("--encrypted") && PlainWord("1")
    ensures PlainWord("--crush-device-class") && PlainWord("--osds_per_device")
  {
  }

  /** A conditional append of a flag and its printed value. */
  method AppendFlag(args: seq<string>, ghost values: seq<string>, given: bool, flag: string, printed: string, ghost value: string)
    returns (args': seq<string>, ghost values': seq<string>)
    requires PrintsAll(args, values) && PlainWord(flag) && Prints(printed, value)
    ensures PrintsAll(args', values') && values' == values + (if given then [flag, value] else [])
  {
    args', values' := args, values;
    if given {
      args' := args' + [flag, printed];
      values' := values' + [flag, value];
    }
  }

  /** The command line assembled by successive conditional appends is read back as the intended argument list. */
  method BuildOsdCommand(q: OsdRequest) returns (cmd: string)
    ensures Tokenize(cmd) == Some(Intended(q))
  {
    FlagsArePlain();
    var args := ["pveceph", "osd", "create", ShellQuote(q.dev)];
    ghost var values := ["pveceph", "osd", "create", q.dev];
    assert PrintsAll(args, values);
    hide PrintsAll, PlainWord, ShellQuote, Tokenize;
    args, values := AppendFlag(args, values, q.dbDev != "", "--db_dev", ShellQuote(q.dbDev), q.dbDev);
    args, values := AppendFlag(args, values, q.walDev != "", "--wal_dev", ShellQuote(q.walDev), q.walDev);
    args, values := AppendFlag(args, values, q.dbDevSize > 0, "--db_dev_size", Number(q.dbDevSize), Number(q.dbDevSize));
    args, values := AppendFlag(args, values, q.walDevSize > 0, "--wal_dev_size", Number(q.walDevSize), Number(q.walDevSize));
    args, values := AppendFlag(args, values, q.encrypted, "--encrypted", "1", "1");
    args, values := AppendFlag(args, values, q.crushClass != "", "--crush-device-class", ShellQuote(q.crushClass), q.crushClass);
    args, values := AppendFlag(args, values, q.osdsPerDevice > 0, "--osds_per_device", Number(q.osdsPerDevice), Number(q.osdsPerDevice));
    assert values == Intended(q);
    PrintedCommand(args, values);
    cmd := Join(args);
  }

  lemma PrintedCommand(printed: seq<string>, values: seq<string>)
    requires PrintsAll(printed, values) && values != []
    ensures Tokenize(Join(printed)) == Some(values)
  {
    JoinRoundTrip(printed, values);
  }

  // ---- What the arguments mean ----

  lemma NumberValue(n: int)
    ensures n > 0 ==> Atoi(Number(n)) == n
  {
    if n > 0 {
      ItoaValue(n);
    }
  }

  /** The value after a flag among the flag and value pairs from position i on, if the flag is there. */
  function ValueOf(args: seq<string>, i: nat, flag: string): Option<string>
    decreases |args| - i
  {
    if i + 1 >= |args| then None
    else if args[i] == flag then Some(args[i + 1])
    else ValueOf(args, i + 2, flag)
  }

  function Given(given: bool, flag: string, value: string): seq<string> { if given then [flag, value] else [] }

  /** One more pair at the end is found unless its flag came before. */
  lemma {:induction false} ValueOfSnoc(args: seq<string>, i: nat, given: bool, name: string, value: string, flag: string)
    requires i <= |args| && (|args| - i) % 2 == 0
    ensures |args + Given(given, name, value)| >= i && (|args + Given(given, name, value)| - i) % 2 == 0
    ensures ValueOf(args + Given(given, name, value), i, flag) ==
            if ValueOf(args, i, flag).Some? then ValueOf(args, i, flag)
            else if given && name == flag then Some(value) else None
    decreases |args| - i
  {
    var all := args + Given(given, name, value);
    if i + 1 < |args| {
      assert all[i] == args[i] && all[i + 1] == args[i + 1];
      ValueOfSnoc(args, i + 2, given, name, value, flag);
    } else if given {
      assert i == |args| && all[i] == name && all[i + 1] == value;
      assert ValueOf(all, i + 2, flag) == None;
    } else {
      assert all == args;
    }
  }

  function Text(given: bool, value: string): Option<string> { if given then Some(value) else None }

  /** What a flag of the command stands for in the request. */
  predicate Means(q: OsdRequest, flag: string, value: Option<string>) {
    if flag == "--db_dev" then value == Text(q.dbDev != "", q.dbDev)
    else if flag == "--wal_dev" then value == Text(q.walDev != "", q.walDev)
    else if flag == "--db_dev_size" then Size(q.dbDevSize, value)
    else if flag == "--wal_dev_size" then Size(q.walDevSize, value)
    else if flag == "--encrypted" then value == Text(q.encrypted, "1")
    else if flag == "--crush-device-class" then value == Text(q.crushClass != "", q.crushClass)
    else if flag == "--osds_per_device" then Size(q.osdsPerDevice, value)
    else value.None?
  }

  /** A positive size is given and reads back as itself; any other is not given. */
  predicate Size(n: int, value: Option<string>) {
    if n > 0 then value.Some? && Atoi(value.value) == n else value.None?
  }

  function Either(a: Option<string>, b: Option<string>): Option<string> { if a.Some? then a else b }

  function TextOf(flag: string, name: string, given: bool, value: string): Option<string> {
    if given && name == flag then Some(value) else None
  }

  /** The first of the pairs in the order of the command that has the flag. */
  function FirstOf(q: OsdRequest, flag: string): Option<string> {
    var v1 := TextOf(flag, "--db_dev", q.dbDev != "", q.dbDev);
    var v2 := Either(v1, TextOf(flag, "--wal_dev", q.walDev != "", q.walDev));
    var v3 := Either(v2, TextOf(flag, "--db_dev_size", q.dbDevSize > 0, Number(q.dbDevSize)));
    var v4 := Either(v3, TextOf(flag, "--wal_dev_size", q.walDevSize > 0, Number(q.walDevSize)));
    var v5 := Either(v4, TextOf(flag, "--encrypted", q.encrypted, "1"));
    var v6 := Either(v5, TextOf(flag, "--crush-device-class", q.crushClass != "", q.crushClass));
    Either(v6, TextOf(flag, "--osds_per_device", q.osdsPerDevice > 0, Number(q.osdsPerDevice)))
  }

  /** The flags differ, by length or by their third letter. */
  lemma FirstMeans(q: OsdRequest, flag: string)
    ensures Means(q, flag, FirstOf(q, flag))
  {
    NumberValue(q.dbDevSize);
    NumberValue(q.walDevSize);
    NumberValue(q.osdsPerDevice);
    hide Number, Atoi;
    assert |"--db_dev"| == 8 && |"--wal_dev"| == 9 && |"--db_dev_size"| == 13 && |"--wal_dev_size"| == 14;
    assert |"--encrypted"| == 11 && |"--crush-device-class"| == 20 && |"--osds_per_device"| == 17;
  }

  /** Seven optional pairs after a head of four words: a flag has the value of its first pair. */
  lemma SevenPairs(head: seq<string>, n1: string, n2: string, n3: string, n4: string, n5: string, n6: string, n7: string,
                   g1: bool, g2: bool, g3: bool, g4: bool, g5: bool, g6: bool, g7: bool,
                   v1: string, v2: string, v3: string, v4: string, v5: string, v6: string, v7: string, flag: string)
    requires |head| == 4
    ensures ValueOf(head + Given(g1, n1, v1) + Given(g2, n2, v2) + Given(g3, n3, v3) + Given(g4, n4, v4)
                    + Given(g5, n5, v5) + Given(g6, n6, v6) + Given(g7, n7, v7), 4, flag) ==
            Either(Either(Either(Either(Either(Either(TextOf(flag, n1, g1, v1), TextOf(flag, n2, g2, v2)), TextOf(flag, n3, g3, v3)),
              TextOf(flag, n4, g4, v4)), TextOf(flag, n5, g5, v5)), TextOf(flag, n6, g6, v6)), TextOf(flag, n7, g7, v7))
  {
    NoValue(head, flag);
    hide ValueOf, Given;
    var a1 := head + Given(g1, n1, v1);
    var a2 := a1 + Given(g2, n2, v2);
    var a3 := a2 + Given(g3, n3, v3);
    var a4 := a3 + Given(g4, n4, v4);
    var a5 := a4 + Given(g5, n5, v5);
    var a6 := a5 + Given(g6, n6, v6);
    ValueOfSnoc(head, 4, g1, n1, v1, flag);
    ValueOfSnoc(a1, 4, g2, n2, v2, flag);
    ValueOfSnoc(a2, 4, g3, n3, v3, flag);
    ValueOfSnoc(a3, 4, g4, n4, v4, flag);
    ValueOfSnoc(a4, 4, g5, n5, v5, flag);
    ValueOfSnoc(a5, 4, g6, n6, v6, flag);
    ValueOfSnoc(a6, 4, g7, n7, v7, flag);
  }

  lemma FlagsInOrder(q: OsdRequest, flag: string)
    ensures ValueOf(Intended(q), 4, flag) == FirstOf(q, flag)
  {
    hide ValueOf, Given, Either, TextOf, Number;
    SevenPairs(["pveceph", "osd", "create", q.dev],
               "--db_dev", "--wal_dev", "--db_dev_size", "--wal_dev_size", "--encrypted", "--crush-device-class", "--osds_per_device",
               q.dbDev != "", q.walDev != "", q.dbDevSize > 0, q.walDevSize > 0, q.encrypted, q.crushClass != "", q.osdsPerDevice > 0,
               q.dbDev, q.walDev, Number(q.dbDevSize), Number(q.walDevSize), "1", q.crushClass, Number(q.osdsPerDevice), flag);
  }

  /** The device comes first; every flag that follows has the value the request gives it, and none is there without one. */
  lemma ArgumentsMeanRequest(q: OsdRequest, flag: string)
    ensures |Intended(q)| >= 4 && Intended(q)[..4] == ["pveceph", "osd", "create", q.dev]
    ensures Means(q, flag, ValueOf(Intended(q), 4, flag))
  {
    HeadStays(q);
    hide Intended, Means, FirstOf, ValueOf;
    FlagsInOrder(q, flag);
    FirstMeans(q, flag);
  }

  lemma HeadStays(q: OsdRequest)
    ensures |Intended(q)| >= 4 && Intended(q)[..4] == ["pveceph", "osd", "create", q.dev]
  {
    hide Number;
  }

  lemma NoValue(args: seq<string>, flag: string)
    requires |args| == 4
    ensures ValueOf(args, 4, flag) == None
  {
  }
}
