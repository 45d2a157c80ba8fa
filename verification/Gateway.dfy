/** The Windows service command line of `src/gateway.rs`: parser, launch info, argument builder and audit. */
module Gateway {
  import opened Wrappers
  import opened Text

  // ----- the parser -----

  function Backslashes(n: nat): string {
    if n == 0 then "" else "\\" + Backslashes(n - 1)
  }

  function Prepend(text: string, r: (string, string)): (string, string) {
    (text + r.0, r.1)
  }

  /** Reads one argument off the front of `rest`: its text, and what is left from the stopping white space on.
      `pending` backslashes have been read and not yet interpreted. */
  function Scan(rest: string, inQuotes: bool, pending: nat): (r: (string, string))
    ensures |r.1| <= |rest|
    ensures rest != "" && (inQuotes || !IsWhitespace(rest[0])) ==> |r.1| < |rest|
    decreases |rest|
  {
    if rest == "" then (Backslashes(pending), "")
    else if rest[0] == '\\' then Scan(rest[1..], inQuotes, pending + 1)
    else if rest[0] == '"' then
      if pending % 2 == 1 then Prepend(Backslashes(pending / 2) + "\"", Scan(rest[1..], inQuotes, 0))
      else if inQuotes && |rest| > 1 && rest[1] == '"' then
        Prepend(Backslashes(pending / 2) + "\"", Scan(rest[2..], inQuotes, 0))
      else Prepend(Backslashes(pending / 2), Scan(rest[1..], !inQuotes, 0))
    else if IsWhitespace(rest[0]) && !inQuotes then (Backslashes(pending), rest)
    else Prepend(Backslashes(pending) + [rest[0]], Scan(rest[1..], inQuotes, 0))
  }

  function ParseArgs(commandLine: string): seq<string>
    decreases |commandLine|
  {
    var rest := TrimStart(commandLine);
    if rest == "" then []
    else
      var (arg, rest') := Scan(rest, false, 0);
      [arg] + ParseArgs(rest')
  }

  /** `args` read so far and `rest` still to read make up the whole answer. */
  ghost predicate ReadSoFar(args: seq<string>, rest: string, answer: seq<string>) {
    args + ParseArgs(rest) == answer
  }

  lemma ReadOneMore(args: seq<string>, rest: string, answer: seq<string>)
    requires ReadSoFar(args, rest, answer) && rest != "" && !IsWhitespace(rest[0])
    ensures ReadSoFar(args + [Scan(rest, false, 0).0], Scan(rest, false, 0).1, answer)
  {
    var (arg, rest') := Scan(rest, false, 0);
    assert ParseArgs(rest) == [arg] + ParseArgs(rest');
    ConcatAssoc(args, [arg], ParseArgs(rest'));
  }

  lemma ReadAll(args: seq<string>, answer: seq<string>)
    requires ReadSoFar(args, "", answer)
    ensures args == answer
  {
  }

  lemma ReadPast(args: seq<string>, before: string, after: string, answer: seq<string>)
    requires ReadSoFar(args, before, answer) && TrimStart(before) == TrimStart(after)
    ensures ReadSoFar(args, after, answer)
  {
  }

  method ParseWindowsCommandLine(chars: string) returns (args: seq<string>)
    ensures args == ParseArgs(chars)
  {
    args := [];
    var index := 0;
    ghost var answer := ParseArgs(chars);
    assert ReadSoFar(args, chars, answer);
    assert chars[0..] == chars;
    while index < |chars|
      invariant index <= |chars|
      invariant ReadSoFar(args, chars[index..], answer)
    {
      ghost var before := chars[index..];
      index := SkipWhitespace(chars, index);
      ReadPast(args, before, chars[index..], answer);
      if index >= |chars| {
        break;
      }
      var arg: string;
      ReadOneMore(args, chars[index..], answer);
      arg, index := ReadArgument(chars, index);
      args := args + [arg];
      before := chars[index..];
      index := SkipWhitespace(chars, index);
      ReadPast(args, before, chars[index..], answer);
    }
    assert chars[index..] == "";
    ReadAll(args, answer);
  }

  /** `arg` read so far and what `rest` still holds of it make up the whole argument. */
  ghost predicate InArgument(whole: (string, string), arg: string, rest: string, inQuotes: bool, pending: nat) {
    Prepend(arg, Scan(rest, inQuotes, pending)) == whole
  }

  // What the branches of the inner loop do to the argument read so far.

  lemma StartArgument(rest: string)
    ensures InArgument(Scan(rest, false, 0), "", rest, false, 0)
  {
    assert "" + Scan(rest, false, 0).0 == Scan(rest, false, 0).0;
  }

  lemma BackslashBranch(whole: (string, string), arg: string, rest: string, inQuotes: bool, pending: nat)
    requires InArgument(whole, arg, rest, inQuotes, pending) && rest != "" && rest[0] == '\\'
    ensures InArgument(whole, arg, rest[1..], inQuotes, pending + 1)
  {
  }

  lemma QuoteBranch(whole: (string, string), arg: string, rest: string, inQuotes: bool, pending: nat)
    requires InArgument(whole, arg, rest, inQuotes, pending) && rest != "" && rest[0] == '"'
    ensures var half := arg + Backslashes(pending / 2);
            if pending % 2 == 1 then InArgument(whole, half + "\"", rest[1..], inQuotes, 0)
            else if inQuotes && |rest| > 1 && rest[1] == '"' then InArgument(whole, half + "\"", rest[2..], inQuotes, 0)
            else InArgument(whole, half, rest[1..], !inQuotes, 0)
  {
    var run := Backslashes(pending / 2);
    ConcatAssoc(arg, run, "\"");
    if pending % 2 == 1 {
      PrependTwice(arg, run + "\"", Scan(rest[1..], inQuotes, 0));
    } else if inQuotes && |rest| > 1 && rest[1] == '"' {
      PrependTwice(arg, run + "\"", Scan(rest[2..], inQuotes, 0));
    } else {
      PrependTwice(arg, run, Scan(rest[1..], !inQuotes, 0));
    }
  }

  lemma CharBranch(whole: (string, string), arg: string, rest: string, inQuotes: bool, pending: nat)
    requires InArgument(whole, arg, rest, inQuotes, pending) && rest != "" && rest[0] != '"' && rest[0] != '\\'
    ensures var run := if pending > 0 then arg + Backslashes(pending) else arg;
            if IsWhitespace(rest[0]) && !inQuotes then whole == (run, rest)
            else InArgument(whole, run + [rest[0]], rest[1..], inQuotes, 0)
  {
    assert pending == 0 ==> arg + Backslashes(pending) == arg;
    ConcatAssoc(arg, Backslashes(pending), [rest[0]]);
    PrependTwice(arg, Backslashes(pending) + [rest[0]], Scan(rest[1..], inQuotes, 0));
  }

  lemma EndArgument(whole: (string, string), arg: string, inQuotes: bool, pending: nat)
    requires InArgument(whole, arg, "", inQuotes, pending)
    ensures whole == (if pending > 0 then arg + Backslashes(pending) else arg, "")
  {
    assert pending == 0 ==> arg + Backslashes(pending) == arg;
  }

  lemma PrependTwice(a: string, b: string, r: (string, string))
    ensures Prepend(a, Prepend(b, r)) == Prepend(a + b, r)
  {
    ConcatAssoc(a, b, r.0);
  }

  /** The inner loop: one argument, from its first character to the white space that ends it. */
  method ReadArgument(chars: string, start: nat) returns (arg: string, index: nat)
    requires start < |chars| && !IsWhitespace(chars[start])
    ensures start < index <= |chars|
    ensures Scan(chars[start..], false, 0) == (arg, chars[index..])
  {
    var inQuotes, backslashes := false, 0;
    arg, index := "", start;
    ghost var whole := Scan(chars[start..], false, 0);
    StartArgument(chars[start..]);
    while index < |chars|
      invariant start <= index <= |chars|
      invariant index == start ==> !inQuotes
      invariant InArgument(whole, arg, chars[index..], inQuotes, backslashes)
    {
      var ch := chars[index];
      ghost var rest := chars[index..];
      assert rest[0] == ch && rest[1..] == chars[index + 1..];
      if ch == '\\' {
        BackslashBranch(whole, arg, rest, inQuotes, backslashes);
        backslashes := backslashes + 1;
        index := index + 1;
        continue;
      }
      if ch == '"' {
        assert index + 1 < |chars| ==> rest[1] == chars[index + 1] && rest[2..] == chars[index + 2..];
        QuoteBranch(whole, arg, rest, inQuotes, backslashes);
        arg := arg + Backslashes(backslashes / 2);
        if backslashes % 2 == 0 {
          if inQuotes && index + 1 < |chars| && chars[index + 1] == '"' {
            arg := arg + "\"";
            index := index + 1;
          } else {
            inQuotes := !inQuotes;
          }
        } else {
          arg := arg + "\"";
        }
        backslashes := 0;
        index := index + 1;
        continue;
      }
      CharBranch(whole, arg, rest, inQuotes, backslashes);
      if backslashes > 0 {
        arg := arg + Backslashes(backslashes);
        backslashes := 0;
      }
      if IsWhitespace(ch) && !inQuotes {
        break;
      }
      arg := arg + [ch];
      index := index + 1;
    }
    if index == |chars| { EndArgument(whole, arg, inQuotes, backslashes); }
    if backslashes > 0 {
      arg := arg + Backslashes(backslashes);
    }
  }

  method SkipWhitespace(chars: string, from: nat) returns (index: nat)
    requires from <= |chars|
    ensures from <= index <= |chars| && (index < |chars| ==> !IsWhitespace(chars[index]))
    ensures TrimStart(chars[index..]) == TrimStart(chars[from..])
  {
    index := from;
    while index < |chars| && IsWhitespace(chars[index])
      invariant from <= index <= |chars|
      invariant TrimStart(chars[index..]) == TrimStart(chars[from..])
    {
      assert chars[index..][1..] == chars[index + 1..];
      index := index + 1;
    }
  }

  // ----- the parser against a grammar of arguments -----

  /** The pieces an argument is written in. Backslashes count only in front of a quote, where they come in pairs. */
  datatype Item =
    | Char(c: char)
    | Slashes(n: nat)          // backslashes not followed by a quote
    | EscapedQuote(n: nat)     // `n` backslashes and a quote, escaped by one more backslash
    | DoubledQuote(n: nat)     // the same inside quotes, by doubling the quote
    | Toggle(n: nat)           // `n` backslashes and the start or end of quoting

  function Written(item: Item): string {
    match item
    case Char(c) => [c]
    case Slashes(n) => Backslashes(n)
    case EscapedQuote(n) => Backslashes(2 * n + 1) + "\""
    case DoubledQuote(n) => Backslashes(2 * n) + "\"\""
    case Toggle(n) => Backslashes(2 * n) + "\""
  }

  function Read(item: Item): string {
    match item
    case Char(c) => [c]
    case Slashes(n) => Backslashes(n)
    case EscapedQuote(n) => Backslashes(n) + "\""
    case DoubledQuote(n) => Backslashes(n) + "\""
    case Toggle(n) => Backslashes(n)
  }

  /** The text of an argument followed by `tail`. */
  function WrittenAll(items: seq<Item>, tail: string): string {
    if items == [] then tail else Written(items[0]) + WrittenAll(items[1..], tail)
  }

  function ReadAllItems(items: seq<Item>): string {
    if items == [] then "" else Read(items[0]) + ReadAllItems(items[1..])
  }

  predicate StartsWithAny(s: string, chars: string) {
    s != "" && s[0] in chars
  }

  /** The item may stand here, with `next` behind it. */
  predicate ItemFits(item: Item, next: string, inQuotes: bool) {
    match item
    case Char(c) => c != '"' && c != '\\' && (inQuotes || !IsWhitespace(c))
    case Slashes(_) => !StartsWithAny(next, "\\\"")
    case EscapedQuote(_) => true
    case DoubledQuote(_) => inQuotes
    case Toggle(_) => inQuotes ==> !StartsWithAny(next, "\"")
  }

  function QuotesAfter(item: Item, inQuotes: bool): bool {
    if item.Toggle? then !inQuotes else inQuotes
  }

  /** `items` are a whole argument that `tail` follows, the first of them standing inside quotes or not. */
  predicate IsArgument(items: seq<Item>, inQuotes: bool, tail: string) {
    if items == [] then tail == "" || (!inQuotes && IsWhitespace(tail[0]))
    else
      && ItemFits(items[0], WrittenAll(items[1..], tail), inQuotes)
      && IsArgument(items[1..], QuotesAfter(items[0], inQuotes), tail)
  }

  lemma {:induction false} ScanSlashes(n: nat, next: string, inQuotes: bool)
    requires ItemFits(Slashes(n), next, inQuotes)
    ensures Scan(Backslashes(n) + next, inQuotes, 0) == Prepend(Backslashes(n), Scan(next, inQuotes, 0))
  {
    ScanBackslashes(n, next, inQuotes, 0);
    LooseBackslashes(n, next, inQuotes);
  }

  lemma {:induction false} ScanMark(item: Item, next: string, inQuotes: bool)
    requires (item.EscapedQuote? || item.Toggle? || item.DoubledQuote?) && ItemFits(item, next, inQuotes)
    ensures Scan(Written(item) + next, inQuotes, 0) == Prepend(Read(item), Scan(next, QuotesAfter(item, inQuotes), 0))
  {
    var n := if item.EscapedQuote? then 2 * item.n + 1 else 2 * item.n;
    var mark := if item.DoubledQuote? then "\"\"" else "\"";
    ConcatAssoc(Backslashes(n), mark, next);
    ScanBackslashes(n, mark + next, inQuotes, 0);
    if item.DoubledQuote? {
      ScanDoubledQuote(next, n);
    } else {
      assert StartsWithAny(next, "\"") <==> next != "" && next[0] == '"';
      ScanQuote(next, inQuotes, n);
    }
  }

  lemma {:induction false} ScanItem(item: Item, next: string, inQuotes: bool)
    requires ItemFits(item, next, inQuotes)
    ensures Scan(Written(item) + next, inQuotes, 0) == Prepend(Read(item), Scan(next, QuotesAfter(item, inQuotes), 0))
  {
    match item
    case Char(c) =>
      ScanChar(c, next, inQuotes, 0);
      assert Backslashes(0) + [c] == [c];
    case Slashes(n) => ScanSlashes(n, next, inQuotes);
    case _ => ScanMark(item, next, inQuotes);
  }

  /** An argument is read as its pieces say, in all ways of writing it. */
  lemma {:induction false} ScanReadsItems(items: seq<Item>, inQuotes: bool, tail: string)
    requires IsArgument(items, inQuotes, tail)
    ensures Scan(WrittenAll(items, tail), inQuotes, 0) == (ReadAllItems(items), tail)
  {
    if items == [] {
      if tail != "" { ScanEnd(tail, 0); }
    } else {
      ScanReadsItems(items[1..], QuotesAfter(items[0], inQuotes), tail);
      ScanItem(items[0], WrittenAll(items[1..], tail), inQuotes);
    }
  }

  lemma {:induction false} ScanDoubledQuote(rest: string, pending: nat)
    requires pending % 2 == 0
    ensures Scan("\"\"" + rest, true, pending) == Prepend(Backslashes(pending / 2) + "\"", Scan(rest, true, 0))
  {
    var all := "\"\"" + rest;
    assert all[0] == '"' && all[1] == '"' && all[2..] == rest;
  }

  /** Backslashes with no quote behind them stand for themselves. */
  lemma {:induction false} LooseBackslashes(n: nat, rest: string, inQuotes: bool)
    requires !StartsWithAny(rest, "\\\"")
    ensures Scan(rest, inQuotes, n) == Prepend(Backslashes(n), Scan(rest, inQuotes, 0))
  {
    assert Backslashes(n) + "" == Backslashes(n);
    if rest != "" {
      assert rest[0] in "\\\"" <==> rest[0] == '\\' || rest[0] == '"';
      var more := if IsWhitespace(rest[0]) && !inQuotes
          then ("", rest) else Prepend([rest[0]], Scan(rest[1..], inQuotes, 0));
      assert "" + [rest[0]] == [rest[0]];
      if !(IsWhitespace(rest[0]) && !inQuotes) {
        PrependTwice(Backslashes(n), [rest[0]], Scan(rest[1..], inQuotes, 0));
      }
    }
  }

  /** The quote that a text starts with after some backslashes, and what follows it. */
  function MarkAt(text: string, inQuotes: bool, pending: nat): (Item, string)
    requires text != "" && text[0] == '"'
  {
    if pending % 2 == 1 then (EscapedQuote(pending / 2), text[1..])
    else if inQuotes && |text| > 1 && text[1] == '"' then (DoubledQuote(pending / 2), text[2..])
    else (Toggle(pending / 2), text[1..])
  }

  lemma {:induction false} MarkFits(text: string, inQuotes: bool, pending: nat)
    requires text != "" && text[0] == '"'
    ensures var (item, rest) := MarkAt(text, inQuotes, pending);
            ItemFits(item, rest, inQuotes) && Written(item) + rest == Backslashes(pending) + text
  {
    var (item, rest) := MarkAt(text, inQuotes, pending);
    var mark := if item.DoubledQuote? then "\"\"" else "\"";
    assert text == mark + rest;
    ConcatAssoc(Backslashes(pending), mark, rest);
    assert StartsWithAny(rest, "\"") <==> rest != "" && rest[0] == '"';
  }

  /** Every text can be read as an argument in exactly this way: backslashes read so far and the rest of the text are
      pieces of an argument and what follows it. */
  lemma {:induction false} EveryTextIsAnArgument(text: string, inQuotes: bool, pending: nat)
    returns (items: seq<Item>, tail: string)
    ensures IsArgument(items, inQuotes, tail)
    ensures WrittenAll(items, tail) == Backslashes(pending) + text
    decreases |text|
  {
    var slashes := if pending > 0 then [Slashes(pending)] else [];
    if text == "" || (text[0] != '"' && text[0] != '\\' && IsWhitespace(text[0]) && !inQuotes) {
      EndFits(text, inQuotes);
      SlashesThen(pending, [], inQuotes, text);
      return slashes + [], text;
    } else if text[0] == '\\' {
      items, tail := EveryTextIsAnArgument(text[1..], inQuotes, pending + 1);
      TakeBackslash(pending, text);
    } else if text[0] == '"' {
      var (item, rest) := MarkAt(text, inQuotes, pending);
      MarkFits(text, inQuotes, pending);
      var more, after := EveryTextIsAnArgument(rest, QuotesAfter(item, inQuotes), 0);
      assert Backslashes(0) + rest == rest;
      ItemThen(item, more, after);
      return [item] + more, after;
    } else {
      var more, after := EveryTextIsAnArgument(text[1..], inQuotes, 0);
      assert Backslashes(0) + text[1..] == text[1..];
      CharThen(text, inQuotes, more, after);
      SlashesThen(pending, [Char(text[0])] + more, inQuotes, after);
      return slashes + ([Char(text[0])] + more), after;
    }
  }

  lemma {:induction false} EndFits(text: string, inQuotes: bool)
    requires text == "" || (text[0] != '"' && text[0] != '\\' && IsWhitespace(text[0]) && !inQuotes)
    ensures IsArgument([], inQuotes, text) && !StartsWithAny(WrittenAll([], text), "\\\"")
  {
    if text != "" { assert text[0] in "\\\"" <==> text[0] == '\\' || text[0] == '"'; }
  }

  lemma {:induction false} CharThen(text: string, inQuotes: bool, more: seq<Item>, tail: string)
    requires text != "" && text[0] != '"' && text[0] != '\\' && (inQuotes || !IsWhitespace(text[0]))
    requires IsArgument(more, inQuotes, tail) && WrittenAll(more, tail) == text[1..]
    ensures var items := [Char(text[0])] + more;
            IsArgument(items, inQuotes, tail) && WrittenAll(items, tail) == text && !StartsWithAny(text, "\\\"")
  {
    ItemThen(Char(text[0]), more, tail);
    assert text == [text[0]] + text[1..];
    assert text[0] in "\\\"" <==> text[0] == '\\' || text[0] == '"';
  }

  lemma {:induction false} ItemThen(item: Item, more: seq<Item>, tail: string)
    ensures WrittenAll([item] + more, tail) == Written(item) + WrittenAll(more, tail)
    ensures ([item] + more)[1..] == more
  {
    assert ([item] + more)[1..] == more;
  }

  lemma {:induction false} SlashesThen(n: nat, more: seq<Item>, inQuotes: bool, tail: string)
    requires IsArgument(more, inQuotes, tail) && !StartsWithAny(WrittenAll(more, tail), "\\\"")
    ensures var items := (if n > 0 then [Slashes(n)] else []) + more;
            IsArgument(items, inQuotes, tail) && WrittenAll(items, tail) == Backslashes(n) + WrittenAll(more, tail)
  {
    ItemThen(Slashes(n), more, tail);
    assert [] + more == more && "" + WrittenAll(more, tail) == WrittenAll(more, tail);
  }

  // ----- quoting by the CommandLineToArgvW rules -----

  /** The inside of a quoted argument and its closing quote: backslashes are doubled in front of a
      quote, where one more escapes it, and at the end. `run` backslashes are still to be written. */
  function QuoteBody(arg: string, run: nat): string {
    if arg == "" then Backslashes(2 * run) + "\""
    else if arg[0] == '\\' then QuoteBody(arg[1..], run + 1)
    else if arg[0] == '"' then Backslashes(2 * run + 1) + "\"" + QuoteBody(arg[1..], 0)
    else Backslashes(run) + [arg[0]] + QuoteBody(arg[1..], 0)
  }

  function Quoted(arg: string): string {
    "\"" + QuoteBody(arg, 0)
  }

  /** Which arguments a writer puts in quotes is its own choice, but the empty argument and
      arguments with a quote in them must be quoted. */
  type Quoting = string -> bool

  ghost predicate SoundQuoting(quote: Quoting) {
    forall a: string :: a == "" || '"' in a ==> quote(a)
  }

  function Render(arg: string, quote: Quoting): string {
    if quote(arg) then Quoted(arg) else arg
  }

  function CommandLine(args: seq<string>, quote: Quoting): string {
    if args == [] then ""
    else if |args| == 1 then Render(args[0], quote)
    else Render(args[0], quote) + " " + CommandLine(args[1..], quote)
  }

  /** What may follow an argument: nothing, or a space. */
  predicate Tail(tail: string) {
    tail == "" || tail[0] == ' '
  }

  // One step of the scan on a text whose first character is given.

  lemma ScanEnd(tail: string, pending: nat)
    requires tail == "" || IsWhitespace(tail[0])
    ensures Scan(tail, false, pending) == (Backslashes(pending), tail)
  {
  }

  lemma ScanQuote(rest: string, inQuotes: bool, pending: nat)
    ensures pending % 2 == 1 ==>
              Scan("\"" + rest, inQuotes, pending) == Prepend(Backslashes(pending / 2) + "\"", Scan(rest, inQuotes, 0))
    ensures pending % 2 == 0 && (inQuotes ==> rest == "" || rest[0] != '"') ==>
              Scan("\"" + rest, inQuotes, pending) == Prepend(Backslashes(pending / 2), Scan(rest, !inQuotes, 0))
  {
    assert ("\"" + rest)[1..] == rest;
  }

  lemma ScanChar(c: char, rest: string, inQuotes: bool, pending: nat)
    requires c != '"' && c != '\\' && (IsWhitespace(c) ==> inQuotes)
    ensures Scan([c] + rest, inQuotes, pending) == Prepend(Backslashes(pending) + [c], Scan(rest, inQuotes, 0))
  {
    assert ([c] + rest)[1..] == rest;
  }

  lemma {:induction false} ScanBackslashes(n: nat, rest: string, inQuotes: bool, pending: nat)
    ensures Scan(Backslashes(n) + rest, inQuotes, pending) == Scan(rest, inQuotes, pending + n)
    decreases n
  {
    if n == 0 {
      assert Backslashes(n) + rest == rest;
    } else {
      assert (Backslashes(n) + rest)[1..] == Backslashes(n - 1) + rest;
      ScanBackslashes(n - 1, rest, inQuotes, pending + 1);
    }
  }

  lemma {:induction false} OneMoreBackslash(n: nat)
    ensures Backslashes(n) + "\\" == Backslashes(n + 1)
  {
    if n > 0 {
      OneMoreBackslash(n - 1);
      ConcatAssoc("\\", Backslashes(n - 1), "\\");
    }
  }

  lemma TakeBackslash(n: nat, arg: string)
    requires arg != "" && arg[0] == '\\'
    ensures Backslashes(n + 1) + arg[1..] == Backslashes(n) + arg
  {
    OneMoreBackslash(n);
    assert arg == "\\" + arg[1..];
    ConcatAssoc(Backslashes(n), "\\", arg[1..]);
  }

  lemma TakeChar(run: string, arg: string)
    requires arg != ""
    ensures (run + [arg[0]]) + arg[1..] == run + arg
  {
    assert arg == [arg[0]] + arg[1..];
    ConcatAssoc(run, [arg[0]], arg[1..]);
  }

  /** Scanning a quoted body gives the argument back. */
  lemma {:induction false} ScanQuoteBody(arg: string, run: nat, tail: string)
    requires Tail(tail)
    ensures Scan(QuoteBody(arg, run) + tail, true, 0) == (Backslashes(run) + arg, tail)
    decreases |arg|
  {
    if arg == "" {
      ConcatAssoc(Backslashes(2 * run), "\"", tail);
      ScanBackslashes(2 * run, "\"" + tail, true, 0);
      ScanQuote(tail, true, 2 * run);
      ScanEnd(tail, 0);
    } else if arg[0] == '\\' {
      ScanQuoteBody(arg[1..], run + 1, tail);
      TakeBackslash(run, arg);
    } else {
      ScanQuoteBody(arg[1..], 0, tail);
      assert Backslashes(0) + arg[1..] == arg[1..];
      TakeChar(Backslashes(run), arg);
      if arg[0] == '"' {
        ScanEscapedQuote(QuoteBody(arg[1..], 0) + tail, run);
      } else {
        ScanBodyChar(arg[0], QuoteBody(arg[1..], 0) + tail, run);
      }
      QuoteBodyStep(arg, run, tail);
    }
  }

  lemma ScanEscapedQuote(rest: string, run: nat)
    ensures Scan(Backslashes(2 * run + 1) + ("\"" + rest), true, 0) ==
            Prepend(Backslashes(run) + "\"", Scan(rest, true, 0))
  {
    ScanBackslashes(2 * run + 1, "\"" + rest, true, 0);
    ScanQuote(rest, true, 2 * run + 1);
  }

  lemma ScanBodyChar(c: char, rest: string, run: nat)
    requires c != '"' && c != '\\'
    ensures Scan(Backslashes(run) + ([c] + rest), true, 0) == Prepend(Backslashes(run) + [c], Scan(rest, true, 0))
  {
    ScanBackslashes(run, [c] + rest, true, 0);
    ScanChar(c, rest, true, run);
  }

  lemma QuoteBodyStep(arg: string, run: nat, tail: string)
    requires arg != "" && arg[0] != '\\'
    ensures QuoteBody(arg, run) + tail ==
            (if arg[0] == '"' then Backslashes(2 * run + 1) else Backslashes(run))
            + ([arg[0]] + (QuoteBody(arg[1..], 0) + tail))
  {
  }

  predicate PlainText(arg: string) {
    '"' !in arg && NoWhitespace(arg)
  }

  /** Text without quotes and white space is read as it stands. */
  lemma {:induction false} ScanPlain(arg: string, tail: string, pending: nat)
    requires PlainText(arg) && (tail == "" || IsWhitespace(tail[0]))
    ensures Scan(arg + tail, false, pending) == (Backslashes(pending) + arg, tail)
    decreases |arg|
  {
    if arg == "" {
      assert arg + tail == tail && Backslashes(pending) + arg == Backslashes(pending);
      ScanEnd(tail, pending);
    } else {
      var rest := arg[1..] + tail;
      assert arg + tail == [arg[0]] + rest;
      assert PlainText(arg[1..]);
      if arg[0] == '\\' {
        assert ([arg[0]] + rest)[1..] == rest;
        ScanPlain(arg[1..], tail, pending + 1);
        TakeBackslash(pending, arg);
      } else {
        ScanChar(arg[0], rest, false, pending);
        ScanPlain(arg[1..], tail, 0);
        assert Backslashes(0) + arg[1..] == arg[1..];
        TakeChar(Backslashes(pending), arg);
      }
    }
  }

  // ----- parsing what was rendered -----

  /** An argument survives when it is quoted or has no white space. */
  predicate Survives(arg: string, quote: Quoting) {
    quote(arg) || NoWhitespace(arg)
  }

  lemma ParseFirst(text: string, tail: string, arg: string)
    requires text != "" && !IsWhitespace(text[0])
    requires Scan(text + tail, false, 0) == (arg, tail)
    ensures ParseArgs(text + tail) == [arg] + ParseArgs(tail)
  {
    assert (text + tail)[0] == text[0];
    assert TrimStart(text + tail) == text + tail;
  }

  lemma ParseQuoted(arg: string, tail: string)
    requires Tail(tail)
    ensures ParseArgs(Quoted(arg) + tail) == [arg] + ParseArgs(tail)
  {
    var body := QuoteBody(arg, 0) + tail;
    assert Quoted(arg) + tail == "\"" + body;
    ScanOpeningQuote(body);
    ScanQuoteBody(arg, 0, tail);
    assert Backslashes(0) + arg == arg;
    ParseFirst(Quoted(arg), tail, arg);
  }

  lemma ScanOpeningQuote(body: string)
    ensures Scan("\"" + body, false, 0) == Scan(body, true, 0)
  {
    ScanQuote(body, false, 0);
    assert "" + Scan(body, true, 0).0 == Scan(body, true, 0).0;
  }

  lemma ParsePlain(arg: string, tail: string)
    requires PlainText(arg) && arg != "" && (tail == "" || IsWhitespace(tail[0]))
    ensures ParseArgs(arg + tail) == [arg] + ParseArgs(tail)
  {
    ScanPlain(arg, tail, 0);
    assert Backslashes(0) + arg == arg;
    ParseFirst(arg, tail, arg);
  }

  lemma ParseSpace(text: string)
    ensures ParseArgs(" " + text) == ParseArgs(text)
  {
    assert (" " + text)[1..] == text;
  }

  function TailOf(args: seq<string>, quote: Quoting): string {
    if args == [] then "" else " " + CommandLine(args, quote)
  }

  lemma CommandLineStep(args: seq<string>, quote: Quoting)
    requires args != []
    ensures CommandLine(args, quote) == Render(args[0], quote) + TailOf(args[1..], quote)
    ensures Tail(TailOf(args[1..], quote))
    ensures ParseArgs(TailOf(args[1..], quote)) == ParseArgs(CommandLine(args[1..], quote))
  {
    ParseSpace(CommandLine(args[1..], quote));
    if |args| == 1 {
      assert Render(args[0], quote) + "" == Render(args[0], quote);
    } else {
      ConcatAssoc(Render(args[0], quote), " ", CommandLine(args[1..], quote));
    }
  }

  lemma {:induction false} ParseRendered(args: seq<string>, quote: Quoting)
    requires SoundQuoting(quote) && forall a :: a in args ==> Survives(a, quote)
    ensures ParseArgs(CommandLine(args, quote)) == args
  {
    if args != [] {
      CommandLineStep(args, quote);
      assert Survives(args[0], quote);
      if quote(args[0]) {
        ParseQuoted(args[0], TailOf(args[1..], quote));
      } else {
        ParsePlain(args[0], TailOf(args[1..], quote));
      }
      ParseRendered(args[1..], quote);
    }
  }

  // ----- an unquoted argument with white space is never given back -----

  function WhitespaceIn(s: string): nat {
    if s == "" then 0 else WhitespaceIn(s[1..]) + (if IsWhitespace(s[0]) then 1 else 0)
  }

  function TotalWhitespace(args: seq<string>): nat {
    if args == [] then 0 else WhitespaceIn(args[0]) + TotalWhitespace(args[1..])
  }

  lemma {:induction false} NoWhitespaceIsZero(s: string)
    ensures NoWhitespace(s) <==> WhitespaceIn(s) == 0
  {
    if s != "" {
      NoWhitespaceIsZero(s[1..]);
      if NoWhitespace(s[1..]) && !IsWhitespace(s[0]) {
        assert forall i :: 0 < i < |s| ==> s[i] == s[1..][i - 1];
      }
    }
  }

  /** How much of `s` comes before its first white space. */
  function FirstWhitespace(s: string): (k: nat)
    ensures k <= |s| && NoWhitespace(s[..k]) && (k < |s| ==> IsWhitespace(s[k]))
  {
    if s == "" || IsWhitespace(s[0]) then 0
    else
      var k := FirstWhitespace(s[1..]);
      assert s[..k + 1] == [s[0]] + s[1..][..k];
      k + 1
  }

  /** Unquoted text falls apart into words without white space. */
  lemma {:induction false} UnquotedLosesWhitespace(arg: string, tail: string)
    requires '"' !in arg && Tail(tail)
    ensures TotalWhitespace(ParseArgs(arg + tail)) == TotalWhitespace(ParseArgs(tail))
    decreases |arg|
  {
    if arg == "" {
      assert arg + tail == tail;
    } else if IsWhitespace(arg[0]) {
      assert (arg + tail)[1..] == arg[1..] + tail;
      assert TrimStart(arg + tail) == TrimStart(arg[1..] + tail);
      UnquotedLosesWhitespace(arg[1..], tail);
    } else {
      var k := FirstWhitespace(arg);
      var word, rest := arg[..k], arg[k..] + tail;
      assert arg == word + arg[k..];
      ConcatAssoc(word, arg[k..], tail);
      ParsePlain(word, rest);
      NoWhitespaceIsZero(word);
      UnquotedLosesWhitespace(arg[k..], tail);
      assert ([word] + ParseArgs(rest))[1..] == ParseArgs(rest);
    }
  }

  lemma {:induction false} WhitespaceSurvivesInQuotes(args: seq<string>, quote: Quoting)
    requires SoundQuoting(quote)
    ensures TotalWhitespace(ParseArgs(CommandLine(args, quote))) <= TotalWhitespace(args)
    ensures (exists a :: a in args && !Survives(a, quote)) ==>
              TotalWhitespace(ParseArgs(CommandLine(args, quote))) < TotalWhitespace(args)
  {
    if args != [] {
      var a, more := args[0], args[1..];
      var tail := TailOf(more, quote);
      CommandLineStep(args, quote);
      WhitespaceSurvivesInQuotes(more, quote);
      NoWhitespaceIsZero(a);
      assert args == [a] + more;
      if quote(a) {
        ParseQuoted(a, tail);
        assert ([a] + ParseArgs(tail))[1..] == ParseArgs(tail);
      } else {
        UnquotedLosesWhitespace(a, tail);
      }
    }
  }

  /** The parser gives back exactly the rendered list, if and only if every argument that contains
      white space was quoted. White space here is any Unicode white space. */
  lemma CommandLineRoundTrip(args: seq<string>, quote: Quoting)
    requires SoundQuoting(quote)
    ensures ParseArgs(CommandLine(args, quote)) == args <==> forall a :: a in args ==> Survives(a, quote)
  {
    WhitespaceSurvivesInQuotes(args, quote);
    if forall a :: a in args ==> Survives(a, quote) { ParseRendered(args, quote); }
  }

  /** The usual rule quotes an argument that is empty or has a space, tab, line feed, vertical tab or quote. */
  function StandardQuoting(arg: string): bool {
    arg == "" || ' ' in arg || '\t' in arg || '\n' in arg || '\U{000B}' in arg || '"' in arg
  }

  /** The usual rule is not enough: a no-break space is no delimiter for it, but it is for the parser. */
  lemma StandardQuotingFallsShort()
    ensures SoundQuoting(StandardQuoting)
    ensures ParseArgs(CommandLine(["a\U{00A0}b"], StandardQuoting)) != ["a\U{00A0}b"]
  {
    var arg := "a\U{00A0}b";
    assert IsWhitespace(arg[1]);
    assert !Survives(arg, StandardQuoting);
    assert arg in [arg];
    CommandLineRoundTrip([arg], StandardQuoting);
  }

  // ----- launch info, arguments and audit -----

  datatype ServiceContext = ServiceContext(exePath: string, configPath: Option<string>, workingDir: string)

  datatype LaunchInfo = LaunchInfo(
    executablePath: Option<string>, configPath: Option<string>, workingDir: Option<string>, isServiceRun: bool)

  datatype Issue = NotAutomatic | NoCommandLine | NotServiceRun | WrongExecutable | WrongWorkingDir | WrongConfig

  predicate HasValue(arg: string, flag: string) {
    flag + "=" <= arg && Trim(arg[|flag| + 1..]) != ""
  }

  /** The value of `flag`: the argument after the flag itself, or what follows the equals sign. */
  function FlagPath(args: seq<string>, flag: string): Option<string> {
    if args == [] then None
    else if args[0] == flag && |args| > 1 then Some(args[1])
    else if args[0] != flag && HasValue(args[0], flag) then Some(args[0][|flag| + 1..])
    else FlagPath(args[1..], flag)
  }

  method ExtractWindowsFlagPath(args: seq<string>, flag: string) returns (path: Option<string>)
    ensures path == FlagPath(args, flag)
  {
    var index := 0;
    while index < |args|
      invariant index <= |args|
      invariant FlagPath(args[index..], flag) == FlagPath(args, flag)
    {
      var arg := args[index];
      assert args[index..][1..] == args[index + 1..];
      if arg == flag {
        if index + 1 < |args| {
          return Some(args[index + 1]);
        }
      } else if flag + "=" <= arg {
        var value := arg[|flag| + 1..];
        if Trim(value) != "" {
          return Some(value);
        }
      }
      index := index + 1;
    }
    return None;
  }

  predicate ValueOf(args: seq<string>, flag: string, i: nat, value: string)
    requires i < |args|
  {
    if args[i] == flag then i + 1 < |args| && value == args[i + 1]
    else args[i] == flag + "=" + value && !AllWhitespace(value)
  }

  ghost predicate NoValueAt(args: seq<string>, flag: string, i: nat)
    requires i < |args|
  {
    if args[i] == flag then i + 1 == |args|
    else !(flag + "=" <= args[i]) || AllWhitespace(args[i][|flag| + 1..])
  }

  ghost predicate FirstValueAt(args: seq<string>, flag: string, i: nat, value: string)
    requires i < |args|
  {
    ValueOf(args, flag, i, value) && forall j :: 0 <= j < i ==> NoValueAt(args, flag, j)
  }

  lemma {:induction false} NoneIsNone(args: seq<string>, flag: string, i: nat)
    requires i < |args|
    ensures forall v :: NoValueAt(args, flag, i) ==> !ValueOf(args, flag, i, v)
  {
    var front := flag + "=";
    forall v | NoValueAt(args, flag, i)
      ensures !ValueOf(args, flag, i, v)
    {
      if args[i] == front + v {
        assert front <= args[i] && args[i][|front|..] == v;
      }
    }
  }

  lemma {:induction false} ValueBehind(args: seq<string>, flag: string, i: nat)
    requires 0 < i < |args|
    ensures forall v :: ValueOf(args, flag, i, v) == ValueOf(args[1..], flag, i - 1, v)
    ensures NoValueAt(args, flag, i) == NoValueAt(args[1..], flag, i - 1)
  {
    var rest := args[1..];
    assert rest[i - 1] == args[i] && (i < |rest| ==> rest[i] == args[i + 1]);
  }

  /** The search stops at the first argument that is the flag with an argument behind it, or has a value that is not
      blank behind the equals sign. */
  lemma {:induction false} FlagPathMeans(args: seq<string>, flag: string)
    ensures var r := FlagPath(args, flag);
            if r.Some? then exists i :: 0 <= i < |args| && FirstValueAt(args, flag, i, r.value)
            else forall i :: 0 <= i < |args| ==> NoValueAt(args, flag, i)
  {
    if args != [] {
      var rest, r := args[1..], FlagPath(args, flag);
      FlagPathMeans(rest, flag);
      FirstValue(args, flag);
      if r.Some? && ValueOf(args, flag, 0, r.value) {
        assert FirstValueAt(args, flag, 0, r.value);
      } else if r.Some? {
        var i :| 0 <= i < |rest| && FirstValueAt(rest, flag, i, r.value);
        LaterValue(args, flag, i, r.value);
      } else {
        forall i | 0 <= i < |args|
          ensures NoValueAt(args, flag, i)
        {
          if i > 0 { ValueBehind(args, flag, i); }
        }
      }
    }
  }

  lemma {:induction false} LaterValue(args: seq<string>, flag: string, i: nat, value: string)
    requires args != [] && NoValueAt(args, flag, 0) && i < |args[1..]| && FirstValueAt(args[1..], flag, i, value)
    ensures FirstValueAt(args, flag, i + 1, value)
  {
    ValueBehind(args, flag, i + 1);
    forall j | 0 <= j < i + 1
      ensures NoValueAt(args, flag, j)
    {
      if j > 0 { ValueBehind(args, flag, j); }
    }
  }

  lemma {:induction false} FirstValue(args: seq<string>, flag: string)
    requires args != []
    ensures var stops := (args[0] == flag && |args| > 1) || (args[0] != flag && HasValue(args[0], flag));
            && (stops ==> FlagPath(args, flag).Some? && ValueOf(args, flag, 0, FlagPath(args, flag).value))
            && (!stops ==> NoValueAt(args, flag, 0) && FlagPath(args, flag) == FlagPath(args[1..], flag))
  {
    var front := flag + "=";
    NoneIsNone(args, flag, 0);
    if args[0] != flag && front <= args[0] {
      assert args[0] == front + args[0][|front|..];
      TrimIsBlank(args[0][|front|..]);
    }
  }

  /** The service words stand next to each other. */
  ghost predicate AsksForServiceRun(args: seq<string>) {
    exists before, after :: args == before + ["gateway", "service-run"] + after
  }

  /** What the launch info says about a command line that was split into `args`. */
  lemma {:induction false} LaunchInfoMeans(args: seq<string>)
    ensures var info := LaunchInfoOf(args);
            && info.executablePath == (if args == [] then None else Some(args[0]))
            && (info.isServiceRun <==> AsksForServiceRun(args))
  {
    if i :| 0 <= i < |args| - 1 && args[i] == "gateway" && args[i + 1] == "service-run" {
      assert args == args[..i] + ["gateway", "service-run"] + args[i + 2..];
    }
    if AsksForServiceRun(args) {
      var before, after :| args == before + ["gateway", "service-run"] + after;
      assert args[|before|] == "gateway" && args[|before| + 1] == "service-run";
    }
  }

  const CONFIG_FLAG := "--config"
  const WORKING_DIR_FLAG := "--working-dir"

  function LaunchInfoOf(args: seq<string>): LaunchInfo {
    LaunchInfo(
      if args == [] then None else Some(args[0]),
      FlagPath(args, CONFIG_FLAG),
      FlagPath(args, WORKING_DIR_FLAG),
      exists i :: 0 <= i < |args| - 1 && args[i] == "gateway" && args[i + 1] == "service-run")
  }

  method BuildLaunchArguments(ctx: ServiceContext) returns (args: seq<string>)
    ensures args == LaunchArguments(ctx)
  {
    args := [];
    if ctx.configPath.Some? {
      args := args + [CONFIG_FLAG];
      args := args + [ctx.configPath.value];
    }
    args := args + ["gateway"];
    args := args + ["service-run"];
    args := args + [WORKING_DIR_FLAG];
    args := args + [ctx.workingDir];
  }

  function LaunchArguments(ctx: ServiceContext): seq<string> {
    (if ctx.configPath.Some? then [CONFIG_FLAG, ctx.configPath.value] else [])
    + ["gateway", "service-run", WORKING_DIR_FLAG, ctx.workingDir]
  }

  function Report(found: bool, issue: Issue): seq<Issue> {
    if found then [issue] else []
  }

  /** The issues of an audit, in the order they are listed. */
  function Issues(ctx: ServiceContext, startType: Option<int>, launch: Option<LaunchInfo>): seq<Issue> {
    var first := Report(startType != Some(2), NotAutomatic);
    if launch.None? then first + [NoCommandLine]
    else
      var info := launch.value;
      first + Report(!info.isServiceRun, NotServiceRun)
      + Report(info.executablePath != Some(ctx.exePath), WrongExecutable)
      + Report(info.workingDir != Some(ctx.workingDir), WrongWorkingDir)
      + Report(ctx.configPath.Some? && info.configPath != ctx.configPath, WrongConfig)
  }

  method AuditWindowsService(ctx: ServiceContext, startType: Option<int>, launch: Option<LaunchInfo>)
    returns (issues: seq<Issue>)
    ensures issues == Issues(ctx, startType, launch)
  {
    issues := [];
    if startType != Some(2) { issues := issues + [NotAutomatic]; }
    assert issues == Report(startType != Some(2), NotAutomatic);
    if launch.None? { return issues + [NoCommandLine]; }
    var info := launch.value;
    NoReport(issues);
    if !info.isServiceRun { issues := issues + [NotServiceRun]; }
    NoReport(issues);
    if info.executablePath != Some(ctx.exePath) { issues := issues + [WrongExecutable]; }
    NoReport(issues);
    if info.workingDir != Some(ctx.workingDir) { issues := issues + [WrongWorkingDir]; }
    NoReport(issues);
    if ctx.configPath.Some? && info.configPath != ctx.configPath { issues := issues + [WrongConfig]; }
  }

  lemma NoReport(issues: seq<Issue>)
    ensures issues + [] == issues
  {
  }

  /** The issues in `found` are listed, each once. */
  ghost predicate Lists(issues: seq<Issue>, found: set<Issue>) {
    && (forall i, j :: 0 <= i < j < |issues| ==> issues[i] != issues[j])
    && forall i :: i in issues <==> i in found
  }

  function With(found: set<Issue>, more: bool, issue: Issue): set<Issue> {
    if more then found + {issue} else found
  }

  lemma ReportLists(issues: seq<Issue>, found: set<Issue>, more: bool, issue: Issue)
    requires Lists(issues, found) && issue !in found
    ensures Lists(issues + Report(more, issue), With(found, more, issue))
  {
    if !more { NoReport(issues); }
  }

  /** The issues of the five conditions, as a set. */
  function Found(automatic: bool, run: bool, executable: bool, dir: bool, config: bool): set<Issue> {
    With(With(With(With(With({}, automatic, NotAutomatic), run, NotServiceRun),
                   executable, WrongExecutable), dir, WrongWorkingDir), config, WrongConfig)
  }

  lemma ReportsList(automatic: bool, run: bool, executable: bool, dir: bool, config: bool)
    ensures Lists(Report(automatic, NotAutomatic) + Report(run, NotServiceRun) + Report(executable, WrongExecutable)
                  + Report(dir, WrongWorkingDir) + Report(config, WrongConfig),
                  Found(automatic, run, executable, dir, config))
  {
    var a := Report(automatic, NotAutomatic);
    var found := With({}, automatic, NotAutomatic);
    ReportLists(a, found, run, NotServiceRun);
    var b := a + Report(run, NotServiceRun);
    found := With(found, run, NotServiceRun);
    ReportLists(b, found, executable, WrongExecutable);
    var c := b + Report(executable, WrongExecutable);
    found := With(found, executable, WrongExecutable);
    ReportLists(c, found, dir, WrongWorkingDir);
    ReportLists(c + Report(dir, WrongWorkingDir), With(found, dir, WrongWorkingDir), config, WrongConfig);
  }

  lemma FoundByCondition(automatic: bool, run: bool, executable: bool, dir: bool, config: bool)
    ensures var found := Found(automatic, run, executable, dir, config);
            && (NotAutomatic in found <==> automatic) && (NotServiceRun in found <==> run)
            && (WrongExecutable in found <==> executable) && (WrongWorkingDir in found <==> dir)
            && (WrongConfig in found <==> config) && NoCommandLine !in found
  {
  }

  /** Every issue is listed exactly under its condition, and none twice. */
  lemma IssuesMean(ctx: ServiceContext, startType: Option<int>, launch: Option<LaunchInfo>) returns (found: set<Issue>)
    ensures Lists(Issues(ctx, startType, launch), found)
    ensures NotAutomatic in found <==> startType != Some(2)
    ensures NoCommandLine in found <==> launch.None?
    ensures NotServiceRun in found <==> launch.Some? && !launch.value.isServiceRun
    ensures WrongExecutable in found <==> launch.Some? && launch.value.executablePath != Some(ctx.exePath)
    ensures WrongWorkingDir in found <==> launch.Some? && launch.value.workingDir != Some(ctx.workingDir)
    ensures WrongConfig in found <==> launch.Some? && ctx.configPath.Some? && launch.value.configPath != ctx.configPath
  {
    var automatic := startType != Some(2);
    if launch.None? { return With({}, automatic, NotAutomatic) + {NoCommandLine}; }
    var info := launch.value;
    var run, executable := !info.isServiceRun, info.executablePath != Some(ctx.exePath);
    var dir := info.workingDir != Some(ctx.workingDir);
    var config := ctx.configPath.Some? && info.configPath != ctx.configPath;
    ReportsList(automatic, run, executable, dir, config);
    FoundByCondition(automatic, run, executable, dir, config);
    found := Found(automatic, run, executable, dir, config);
  }

  /** The search for `flag` stops at `arg`. */
  predicate Takes(arg: string, flag: string) {
    arg == flag || HasValue(arg, flag)
  }

  /** What the search finds there. */
  function Taken(arg: string, next: string, flag: string): string
    requires Takes(arg, flag)
  {
    if arg == flag then next else arg[|flag| + 1..]
  }

  /** The argument the service is installed with after its executable. */
  function SecondArgument(ctx: ServiceContext): string {
    if ctx.configPath.Some? then CONFIG_FLAG else "gateway"
  }

  /** No earlier path is mistaken for the config flag, or what it yields happens to be the config path. */
  predicate ConfigRecovered(ctx: ServiceContext) {
    if Takes(ctx.exePath, CONFIG_FLAG) then ctx.configPath == Some(Taken(ctx.exePath, SecondArgument(ctx), CONFIG_FLAG))
    else ctx.configPath.Some? || !HasValue(ctx.workingDir, CONFIG_FLAG)
  }

  /** The same for the working directory, which the config path may also be mistaken for. */
  predicate WorkingDirRecovered(ctx: ServiceContext) {
    if Takes(ctx.exePath, WORKING_DIR_FLAG) then
      ctx.workingDir == Taken(ctx.exePath, SecondArgument(ctx), WORKING_DIR_FLAG)
    else ctx.configPath.Some? && Takes(ctx.configPath.value, WORKING_DIR_FLAG) ==>
           ctx.workingDir == Taken(ctx.configPath.value, "gateway", WORKING_DIR_FLAG)
  }

  lemma FlagPathTakes(arg: string, rest: seq<string>, flag: string)
    requires Takes(arg, flag) && rest != []
    ensures FlagPath([arg] + rest, flag) == Some(Taken(arg, rest[0], flag))
  {
    assert ([arg] + rest)[1] == rest[0];
  }

  /** The fixed arguments and the working directory, which follow every path that may be taken for a flag. */
  function FixedPart(workingDir: string): seq<string> {
    ["gateway"] + (["service-run"] + ([WORKING_DIR_FLAG] + [workingDir]))
  }

  lemma FixedPartFlags(workingDir: string)
    ensures FlagPath(FixedPart(workingDir), WORKING_DIR_FLAG) == Some(workingDir)
    ensures FlagPath(FixedPart(workingDir), CONFIG_FLAG) ==
            if HasValue(workingDir, CONFIG_FLAG) then Some(workingDir[|CONFIG_FLAG| + 1..]) else None
  {
    DiffersAt("gateway", CONFIG_FLAG, 0);
    DiffersAt("service-run", CONFIG_FLAG, 0);
    DiffersAt(WORKING_DIR_FLAG, CONFIG_FLAG, 2);
    DiffersAt("gateway", WORKING_DIR_FLAG, 0);
    DiffersAt("service-run", WORKING_DIR_FLAG, 0);
    var last := [WORKING_DIR_FLAG] + [workingDir];
    FlagPathSkips("gateway", ["service-run"] + last, CONFIG_FLAG);
    FlagPathSkips("service-run", last, CONFIG_FLAG);
    FlagPathSkips(WORKING_DIR_FLAG, [workingDir], CONFIG_FLAG);
    FlagPathSkips("gateway", ["service-run"] + last, WORKING_DIR_FLAG);
    FlagPathSkips("service-run", last, WORKING_DIR_FLAG);
    FlagPathTakes(WORKING_DIR_FLAG, [workingDir], WORKING_DIR_FLAG);
    LastIsNoFlag(workingDir, CONFIG_FLAG);
  }

  lemma LastIsNoFlag(arg: string, flag: string)
    ensures FlagPath([arg], flag) == if HasValue(arg, flag) then Some(arg[|flag| + 1..]) else None
  {
    if HasValue(arg, flag) { assert |arg| > |flag|; }
    assert [arg][1..] == [];
  }

  /** What the installed arguments look like to a search. */
  lemma InstalledArguments(ctx: ServiceContext)
    ensures [ctx.exePath] + LaunchArguments(ctx) ==
            if ctx.configPath.Some? then
              [ctx.exePath] + ([CONFIG_FLAG] + ([ctx.configPath.value] + FixedPart(ctx.workingDir)))
            else [ctx.exePath] + FixedPart(ctx.workingDir)
  {
  }

  lemma ConfigOfArguments(ctx: ServiceContext)
    ensures FlagPath([ctx.exePath] + LaunchArguments(ctx), CONFIG_FLAG) == ctx.configPath <==> ConfigRecovered(ctx)
  {
    InstalledArguments(ctx);
    var fixed := FixedPart(ctx.workingDir);
    FixedPartFlags(ctx.workingDir);
    var after := if ctx.configPath.Some? then [CONFIG_FLAG] + ([ctx.configPath.value] + fixed) else fixed;
    if Takes(ctx.exePath, CONFIG_FLAG) {
      FlagPathTakes(ctx.exePath, after, CONFIG_FLAG);
    } else {
      FlagPathSkips(ctx.exePath, after, CONFIG_FLAG);
      if ctx.configPath.Some? { FlagPathTakes(CONFIG_FLAG, [ctx.configPath.value] + fixed, CONFIG_FLAG); }
    }
  }

  lemma WorkingDirOfArguments(ctx: ServiceContext)
    ensures FlagPath([ctx.exePath] + LaunchArguments(ctx), WORKING_DIR_FLAG) == Some(ctx.workingDir) <==>
            WorkingDirRecovered(ctx)
  {
    InstalledArguments(ctx);
    var fixed := FixedPart(ctx.workingDir);
    FixedPartFlags(ctx.workingDir);
    var after := if ctx.configPath.Some? then [CONFIG_FLAG] + ([ctx.configPath.value] + fixed) else fixed;
    if Takes(ctx.exePath, WORKING_DIR_FLAG) {
      FlagPathTakes(ctx.exePath, after, WORKING_DIR_FLAG);
    } else {
      FlagPathSkips(ctx.exePath, after, WORKING_DIR_FLAG);
      if ctx.configPath.Some? {
        var c := ctx.configPath.value;
        DiffersAt(CONFIG_FLAG, WORKING_DIR_FLAG, 2);
        FlagPathSkips(CONFIG_FLAG, [c] + fixed, WORKING_DIR_FLAG);
        if Takes(c, WORKING_DIR_FLAG) {
          FlagPathTakes(c, fixed, WORKING_DIR_FLAG);
        } else {
          FlagPathSkips(c, fixed, WORKING_DIR_FLAG);
        }
      }
    }
  }

  lemma RestOfLaunchInfo(ctx: ServiceContext)
    ensures var info := LaunchInfoOf([ctx.exePath] + LaunchArguments(ctx));
            info.executablePath == Some(ctx.exePath) && info.isServiceRun
  {
    var args := [ctx.exePath] + LaunchArguments(ctx);
    var n := if ctx.configPath.Some? then 3 else 1;
    assert args[n] == "gateway" && args[n + 1] == "service-run";
  }

  lemma FlagPathSkips(arg: string, rest: seq<string>, flag: string)
    requires arg != flag && !HasValue(arg, flag)
    ensures FlagPath([arg] + rest, flag) == FlagPath(rest, flag)
  {
    assert ([arg] + rest)[1..] == rest;
  }

  lemma DiffersAt(arg: string, flag: string, i: nat)
    requires i < |arg| && i < |flag| && arg[i] != flag[i]
    ensures arg != flag && !HasValue(arg, flag)
  {
    assert (flag + "=")[i] == flag[i];
  }

  lemma FixedArgumentsSurvive()
    ensures NoWhitespace("gateway") && NoWhitespace("service-run")
    ensures NoWhitespace(CONFIG_FLAG) && NoWhitespace(WORKING_DIR_FLAG)
  {
  }

  ghost predicate PathsSurvive(ctx: ServiceContext, quote: Quoting) {
    && Survives(ctx.exePath, quote) && Survives(ctx.workingDir, quote)
    && (ctx.configPath.Some? ==> Survives(ctx.configPath.value, quote))
  }

  lemma InstalledLineParses(ctx: ServiceContext, quote: Quoting)
    requires SoundQuoting(quote) && PathsSurvive(ctx, quote)
    ensures var args := [ctx.exePath] + LaunchArguments(ctx); ParseArgs(CommandLine(args, quote)) == args
  {
    var args := [ctx.exePath] + LaunchArguments(ctx);
    forall a | a in args
      ensures Survives(a, quote)
    {
      FixedArgumentsSurvive();
      if a != ctx.exePath { assert a in LaunchArguments(ctx); }
    }
    CommandLineRoundTrip(args, quote);
  }

  /** The whole chain: the installed command line, parsed again, names the same executable, config and
      working directory, if and only if no path is mistaken for a flag with another value. It does not matter
      which sound way of quoting wrote the line. */
  lemma InstalledServiceIsRecognised(ctx: ServiceContext, quote: Quoting)
    requires SoundQuoting(quote) && PathsSurvive(ctx, quote)
    ensures LaunchInfoOf(ParseArgs(CommandLine([ctx.exePath] + LaunchArguments(ctx), quote)))
            == LaunchInfo(Some(ctx.exePath), ctx.configPath, Some(ctx.workingDir), true)
            <==> ConfigRecovered(ctx) && WorkingDirRecovered(ctx)
  {
    InstalledLineParses(ctx, quote);
    ConfigOfArguments(ctx);
    WorkingDirOfArguments(ctx);
    RestOfLaunchInfo(ctx);
  }

  /** Paths that look like no flag are always recognised. */
  lemma PlainPathsAreRecovered(ctx: ServiceContext)
    requires !Takes(ctx.exePath, CONFIG_FLAG) && !Takes(ctx.exePath, WORKING_DIR_FLAG) &&
             !HasValue(ctx.workingDir, CONFIG_FLAG)
    requires ctx.configPath.Some? ==> !Takes(ctx.configPath.value, WORKING_DIR_FLAG)
    ensures ConfigRecovered(ctx) && WorkingDirRecovered(ctx)
  {
  }

  /** `parse_windows_service_launch_info`. */
  method ParseWindowsServiceLaunchInfo(commandLine: string) returns (info: LaunchInfo)
    ensures info == LaunchInfoOf(ParseArgs(commandLine))
  {
    var args := ParseWindowsCommandLine(commandLine);
    var executablePath := if args == [] then None else Some(args[0]);
    var isServiceRun := exists i :: 0 <= i < |args| - 1 && args[i] == "gateway" && args[i + 1] == "service-run";
    var configPath := ExtractWindowsFlagPath(args, CONFIG_FLAG);
    var workingDir := ExtractWindowsFlagPath(args, WORKING_DIR_FLAG);
    return LaunchInfo(executablePath, configPath, workingDir, isServiceRun);
  }

  /** The audit of the service as installed: besides its start type, it complains about the working directory
      or the config path exactly when they are not recovered. */
  method AuditInstalledService(ctx: ServiceContext, startType: Option<int>, quote: Quoting) returns (issues: seq<Issue>)
    requires SoundQuoting(quote) && PathsSurvive(ctx, quote)
    ensures issues == Report(startType != Some(2), NotAutomatic)
                      + Report(!WorkingDirRecovered(ctx), WrongWorkingDir)
                      + Report(ctx.configPath.Some? && !ConfigRecovered(ctx), WrongConfig)
  {
    var args := BuildLaunchArguments(ctx);
    InstalledLineParses(ctx, quote);
    var info := ParseWindowsServiceLaunchInfo(CommandLine([ctx.exePath] + args, quote));
    issues := AuditWindowsService(ctx, startType, Some(info));
    ConfigOfArguments(ctx);
    WorkingDirOfArguments(ctx);
    RestOfLaunchInfo(ctx);
    NoReport(Report(startType != Some(2), NotAutomatic));
  }
}
