/**
  The script that lists a remote directory, and the reading of its output
  (internal/console/chat_workspace.go).
*/
module ShellWords {
  import opened Options
  import opened Text

  /** `consoleChatWorkspaceShellQuote` */
  function Quote(value: string): string
  {
    "'" + (ReplaceQuotes(value) + "'")
  }

  /** `strings.ReplaceAll` of every single quote by: end of quoting, a quote in double quotes, quoting again. */
  function ReplaceQuotes(value: string): string
  {
    if value == "" then "" else (if value[0] == '\'' then "'\"'\"'" else [value[0]]) + ReplaceQuotes(value[1..])
  }

  // ----- words as the shell reads them (POSIX Shell Command Language, sections 2.2 and 2.3)

  datatype Mode = Unquoted | SingleQuoted | DoubleQuoted

  /** The text of a word after quote removal, and the input that follows the word. */
  datatype Word = Word(text: string, rest: string)

  function Prepend(c: char, w: Option<Word>): Option<Word>
  {
    match w
    case None => None
    case Some(word) => Some(Word([c] + word.text, word.rest))
  }

  predicate EndsWord(c: char)
  {
    c in " \t\n|&;<>()"
  }

  /** Characters that mean something to the shell when they are not quoted. */
  predicate IsSpecial(c: char)
  {
    c in "$`*?[#~=%{}!"
  }

  /** Reading the rest of a word. There is no word when a quote is not closed, or when the text would not be
      taken literally. */
  function ReadWord(s: string, mode: Mode): Option<Word>
    decreases |s|
  {
    if s == "" then if mode.Unquoted? then Some(Word("", "")) else None
    else
      var c, more := s[0], s[1..];
      match mode
      case SingleQuoted => if c == '\'' then ReadWord(more, Unquoted) else Prepend(c, ReadWord(more, SingleQuoted))
      case DoubleQuoted =>
        if c == '"' then ReadWord(more, Unquoted)
        else if c == '$' || c == '`' then None
        else if c == '\\' && more != "" && more[0] in "$`\"\\" then Prepend(more[0], ReadWord(more[1..], DoubleQuoted))
        else if c == '\\' && more != "" && more[0] == '\n' then ReadWord(more[1..], DoubleQuoted)
        else Prepend(c, ReadWord(more, DoubleQuoted))
      case Unquoted =>
        if EndsWord(c) then Some(Word("", s))
        else if c == '\'' then ReadWord(more, SingleQuoted)
        else if c == '"' then ReadWord(more, DoubleQuoted)
        else if c == '\\' && more != "" && more[0] == '\n' then ReadWord(more[1..], Unquoted)
        else if c == '\\' && more != "" then Prepend(more[0], ReadWord(more[1..], Unquoted))
        else if IsSpecial(c) || c == '\\' then None
        else Prepend(c, ReadWord(more, Unquoted))
  }

  lemma {:induction false} ReadQuoted(value: string, rest: string)
    requires rest == "" || EndsWord(rest[0])
    ensures ReadWord(ReplaceQuotes(value) + "'" + rest, SingleQuoted) == Some(Word(value, rest))
  {
    var s := ReplaceQuotes(value) + "'" + rest;
    if value == "" {
      assert s[0] == '\'' && s[1..] == rest;
    } else {
      var t := ReplaceQuotes(value[1..]) + "'" + rest;
      ReadQuoted(value[1..], rest);
      assert value == [value[0]] + value[1..];
      assert s == (if value[0] == '\'' then "'\"'\"'" else [value[0]]) + t;
      if value[0] == '\'' {
        FiveCharacters(t);
      } else {
        OneCharacter(value[0], t);
      }
    }
  }

  lemma OneCharacter(c: char, t: string)
    requires c != '\''
    ensures ReadWord([c] + t, SingleQuoted) == Prepend(c, ReadWord(t, SingleQuoted))
  {
    assert ([c] + t)[1..] == t;
  }

  /** The replacement stands for one single quote. */
  lemma FiveCharacters(t: string)
    ensures ReadWord("'\"'\"'" + t, SingleQuoted) == Prepend('\'', ReadWord(t, SingleQuoted))
  {
    var s := "'\"'\"'" + t;
    var five := "'\"'\"'";
    assert five[0] == '\'' && five[1] == '"' && five[2] == '\'' && five[3] == '"' && five[4] == '\'' && |five| == 5;
    assert s[0] == '\'' && s[1] == '"' && s[2] == '\'' && s[3] == '"' && s[4] == '\'';
    assert s[1..][1..] == s[2..] && s[2..][1..] == s[3..] && s[3..][1..] == s[4..] && s[4..][1..] == t;
    assert ReadWord(s[4..], Unquoted) == ReadWord(t, SingleQuoted);
    assert ReadWord(s[3..], DoubleQuoted) == ReadWord(s[4..], Unquoted);
    assert ReadWord(s[2..], DoubleQuoted) == Prepend('\'', ReadWord(s[3..], DoubleQuoted));
    assert ReadWord(s[1..], Unquoted) == ReadWord(s[2..], DoubleQuoted);
  }

  /** Whatever the text, the shell reads its quoted form as one word that is the text, up to where the word
      ends. (A shell cannot be given a NUL; callers exclude it.) */
  lemma QuotedIsOneWord(value: string, rest: string)
    requires rest == "" || EndsWord(rest[0])
    ensures ReadWord(Quote(value) + rest, Unquoted) == Some(Word(value, rest))
  {
    var body := ReplaceQuotes(value) + "'" + rest;
    Associate("'", ReplaceQuotes(value) + "'", rest);
    assert ("'" + body)[1..] == body;
    ReadQuoted(value, rest);
  }

  const SCRIPT_HEAD := "set -u\ndir="

  /** `consoleChatWorkspaceListDirScript`: an assignment of the path, and the rest of the script. */
  function ListDirScript(path: string, tail: string): string
  {
    SCRIPT_HEAD + Quote(path) + tail
  }

  lemma ScriptAfterHead(path: string, tail: string)
    ensures SCRIPT_HEAD <= ListDirScript(path, tail)
    ensures ListDirScript(path, tail)[|SCRIPT_HEAD|..] == Quote(path) + tail
  {
    Associate(SCRIPT_HEAD, Quote(path), tail);
  }

  /** The script assigns exactly the path, whatever the rest of the script is, as long as it begins on a new
      line or otherwise ends the word; and two scripts are the same only for the same path. */
  lemma ScriptAssignsPath(path: string, other: string, tail: string)
    requires tail != "" && EndsWord(tail[0])
    ensures SCRIPT_HEAD <= ListDirScript(path, tail)
    ensures ReadWord(ListDirScript(path, tail)[|SCRIPT_HEAD|..], Unquoted) == Some(Word(path, tail))
    ensures ListDirScript(path, tail) == ListDirScript(other, tail) ==> path == other
  {
    ScriptAfterHead(path, tail);
    ScriptAfterHead(other, tail);
    QuotedIsOneWord(path, tail);
    QuotedIsOneWord(other, tail);
  }
}

module DirectoryListing {
  import opened Text
  import opened Sorting

  // ----- what the script prints

  predicate Skipped(name: string)
  {
    name == "." || name == ".."
  }

  /** The output for a directory: its resolved path, then its subdirectories in the order of the patterns. */
  function Output(pwd: string, entries: seq<string>): string
  {
    "OK\t" + pwd + "\n" + DirLines(entries)
  }

  function DirLines(entries: seq<string>): string
  {
    if entries == [] then ""
    else if Skipped(entries[0]) then DirLines(entries[1..])
    else "D\t" + entries[0] + "\n" + DirLines(entries[1..])
  }

  function Names(entries: seq<string>): seq<string>
  {
    if entries == [] then []
    else if Skipped(entries[0]) then Names(entries[1..])
    else [entries[0]] + Names(entries[1..])
  }

  // ----- reading it

  function TrimCR(s: string): (t: string)
    ensures t <= s
  {
    if s != "" && s[|s| - 1] == '\r' then TrimCR(s[..|s| - 1]) else s
  }

  datatype Reading = Blank | Resolved(path: string) | Name(name: string) | Failed

  /** What one line says. */
  function ReadLine(line: string): Reading
  {
    var s := TrimCR(line);
    var i := IndexOf(s, '\t');
    if i == |s| then Blank
    else
      var tag, value := s[..i], TrimSpace(s[i + 1..]);
      if tag == "OK" then Resolved(value)
      else if tag == "D" then (if value != "" && !Skipped(value) then Name(value) else Blank)
      else if tag == "ERR" then Failed
      else Blank
  }

  predicate AnyFailed(lines: seq<string>)
  {
    exists i :: 0 <= i < |lines| && ReadLine(lines[i]).Failed?
  }

  predicate AnyResolved(lines: seq<string>)
  {
    exists i :: 0 <= i < |lines| && ReadLine(lines[i]).Resolved?
  }

  /** The last resolved path. */
  function LastResolved(lines: seq<string>): string
  {
    if lines == [] then ""
    else if ReadLine(Last(lines)).Resolved? then ReadLine(Last(lines)).path
    else LastResolved(Init(lines))
  }

  function NameIn(line: string): seq<string>
  {
    if ReadLine(line).Name? then [ReadLine(line).name] else []
  }

  function NamesIn(lines: seq<string>): seq<string>
  {
    if lines == [] then []
    else NamesIn(Init(lines)) + NameIn(Last(lines))
  }

  /** The body of the loop over the lines. */
  method TakeLine(line: string) returns (reading: Reading)
    ensures reading == ReadLine(line)
  {
    var trimmed := TrimCR(line);
    if trimmed == "" {
      return Blank;
    }
    var index := IndexOf(trimmed, '\t');
    if index == |trimmed| {
      return Blank;
    }
    var tag, value := trimmed[..index], trimmed[index + 1..];
    if tag == "OK" {
      return Resolved(TrimSpace(value));
    }
    if tag == "D" {
      var name := TrimSpace(value);
      if name != "" && name != "." && name != ".." {
        return Name(name);
      }
      return Blank;
    }
    return if tag == "ERR" then Failed else Blank;
  }

  /** `parseConsoleChatWorkspaceListDir` */
  method ParseListDir(stdout: string) returns (resolved: string, directories: seq<string>, ok: bool)
    ensures var lines := SplitLines(stdout);
            && (ok <==> AnyResolved(lines) && !AnyFailed(lines))
            && (ok ==> resolved == LastResolved(lines) && directories == SortStrings(NamesIn(lines)))
            && (!ok ==> resolved == "" && directories == [])
  {
    resolved, directories, ok := "", [], false;
    var lines := SplitLines(stdout);
    for i := 0 to |lines|
      invariant resolved == LastResolved(lines[..i]) && directories == NamesIn(lines[..i])
      invariant ok <==> AnyResolved(lines[..i])
      invariant !AnyFailed(lines[..i])
    {
      assert Init(lines[..i + 1]) == lines[..i] && Last(lines[..i + 1]) == lines[i];
      OneMoreReading(lines, i);
      var reading := TakeLine(lines[i]);
      match reading
      case Blank =>
      case Resolved(path) =>
        resolved := path;
        ok := true;
      case Name(name) =>
        directories := directories + [name];
      case Failed =>
        return "", [], false;
    }
    assert lines[..|lines|] == lines;
    if !ok {
      return "", [], false;
    }
    directories := SortStrings(directories);
  }

  lemma OneMoreReading(lines: seq<string>, i: nat)
    requires i < |lines|
    ensures AnyResolved(lines[..i + 1]) <==> AnyResolved(lines[..i]) || ReadLine(lines[i]).Resolved?
    ensures AnyFailed(lines[..i + 1]) <==> AnyFailed(lines[..i]) || ReadLine(lines[i]).Failed?
    ensures ReadLine(lines[i]).Failed? ==> AnyFailed(lines)
  {
    var now, before := lines[..i + 1], lines[..i];
    assert forall j :: 0 <= j < i ==> now[j] == before[j];
    assert now[i] == lines[i];
  }

  // ----- what can be recovered

  /** A text that survives: one line, without white space at its ends. */
  predicate Survives(s: string)
  {
    '\n' !in s && Trimmed(s)
  }

  lemma TrimCRShortens(s: string)
    ensures |TrimSpace(TrimCR(s))| <= |s|
    ensures |TrimSpace(TrimCR(s))| == |s| <==> Trimmed(s)
  {
    TrimLength(TrimCR(s));
    TrimLength(s);
    if Trimmed(s) { assert TrimCR(s) == s; }
  }

  lemma TrimLength(s: string)
    ensures |TrimSpace(s)| <= |s| && (|TrimSpace(s)| == |s| <==> Trimmed(s))
  {
    var left, right := TrimSpaceSplits(s);
    TrimmedIsFixed(s);
    if |TrimSpace(s)| == |s| { assert left == "" && right == ""; }
  }

  lemma {:induction false} TrimCRAfter(front: string, s: string)
    requires front != "" && front[|front| - 1] != '\r'
    ensures TrimCR(front + s) == front + TrimCR(s)
  {
    if s == "" {
      assert front + s == front;
    } else if s[|s| - 1] == '\r' {
      TrimCRAfter(front, s[..|s| - 1]);
      assert (front + s)[..|front + s| - 1] == front + s[..|s| - 1];
    }
  }

  /** A line with a tag. */
  lemma ReadTagged(tag: string, s: string)
    requires '\t' !in tag
    ensures var v := TrimSpace(TrimCR(s));
            ReadLine(tag + "\t" + s) ==
            if tag == "OK" then Resolved(v) else if tag == "D" then (if v != "" && !Skipped(v) then Name(v) else Blank)
            else if tag == "ERR" then Failed else Blank
  {
    TrimCRAfter(tag + "\t", s);
    var t := tag + "\t" + TrimCR(s);
    IndexOfAfter(tag, '\t', "\t" + TrimCR(s));
    assert t == tag + ("\t" + TrimCR(s));
    assert t[..|tag|] == tag && t[|tag| + 1..] == TrimCR(s);
  }

  // ----- the lines of the output

  /** Splitting at a newline that is known. */
  lemma SplitAtNewline(a: string, b: string)
    ensures SplitLines(a + "\n" + b) == SplitLines(a) + SplitLines(b)
  {
    var lines := SplitLines(a);
    SplitLinesHaveNoNewline(a, |lines| - 1);
    SplitLinesAppend(a, "\n" + b);
    SplitNewlineAfter(Last(lines), b);
    Associate(a, "\n", b);
    Associate(Init(lines), [Last(lines)], SplitLines(b));
    assert lines == Init(lines) + [Last(lines)];
  }

  lemma {:induction false} SplitTagged(tag: string, s: string)
    requires '\n' !in tag
    ensures SplitLines(tag + s) == [tag + SplitLines(s)[0]] + SplitLines(s)[1..]
  {
    var lines := SplitLines(s);
    if tag == "" {
      assert tag + s == s && "" + lines[0] == lines[0];
      assert lines == [lines[0]] + lines[1..];
    } else {
      assert tag[0] in tag && forall c :: c in tag[1..] ==> c in tag;
      SplitTagged(tag[1..], s);
      assert (tag + s)[0] == tag[0] && (tag + s)[1..] == tag[1..] + s;
      Associate([tag[0]], tag[1..], lines[0]);
      assert tag == [tag[0]] + tag[1..];
    }
  }

  function TotalLength(s: seq<string>): nat
  {
    if s == [] then 0 else TotalLength(Init(s)) + |Last(s)|
  }

  lemma TotalLengthSnoc(s: seq<string>, x: string)
    ensures TotalLength(s + [x]) == TotalLength(s) + |x|
  {
    assert Init(s + [x]) == s && Last(s + [x]) == x;
  }

  lemma {:induction false} TotalLengthAppend(a: seq<string>, b: seq<string>)
    ensures TotalLength(a + b) == TotalLength(a) + TotalLength(b)
  {
    if b == [] {
      assert a + b == a;
    } else {
      TotalLengthAppend(a, Init(b));
      assert Init(a + b) == a + Init(b) && Last(a + b) == Last(b);
    }
  }

  lemma TotalLengthCons(x: string, s: seq<string>)
    ensures TotalLength([x] + s) == |x| + TotalLength(s)
  {
    TotalLengthAppend([x], s);
    TotalLengthSnoc([], x);
    assert [] + [x] == [x];
  }

  lemma NamesInOne(line: string)
    ensures NamesIn([line]) == NameIn(line)
  {
    assert Init([line]) == [];
  }

  lemma {:induction false} NamesInAppend(a: seq<string>, b: seq<string>)
    ensures NamesIn(a + b) == NamesIn(a) + NamesIn(b)
  {
    if b == [] {
      assert a + b == a;
    } else {
      NamesInAppend(a, Init(b));
      assert Init(a + b) == a + Init(b) && Last(a + b) == Last(b);
      Associate(NamesIn(a), NamesIn(Init(b)), NameIn(Last(b)));
    }
  }

  lemma NameIsShorter(line: string)
    ensures TotalLength(NameIn(line)) <= |line|
  {
    var s := TrimCR(line);
    var i := IndexOf(s, '\t');
    if i < |s| {
      TrimLength(s[i + 1..]);
      TotalLengthSnoc([], TrimSpace(s[i + 1..]));
      assert [] + [TrimSpace(s[i + 1..])] == [TrimSpace(s[i + 1..])];
    }
  }

  /** The names read from lines are no longer than the lines. */
  lemma {:induction false} NamesAreShorter(lines: seq<string>)
    ensures TotalLength(NamesIn(lines)) <= TotalLength(lines)
  {
    if lines != [] {
      NamesAreShorter(Init(lines));
      NameIsShorter(Last(lines));
      TotalLengthAppend(NamesIn(Init(lines)), NameIn(Last(lines)));
    }
  }

  lemma {:induction false} LengthOfLines(s: string)
    ensures TotalLength(SplitLines(s)) + |SplitLines(s)| == |s| + 1
  {
    if s == "" {
      TotalLengthCons("", []);
      assert [""] + [] == [""];
    } else {
      var rest := SplitLines(s[1..]);
      LengthOfLines(s[1..]);
      assert rest == [rest[0]] + rest[1..];
      TotalLengthCons(rest[0], rest[1..]);
      TotalLengthCons([s[0]] + rest[0], rest[1..]);
      TotalLengthCons("", rest);
    }
  }

  /** From the lines of one entry that survives the name is read. */
  lemma CleanEntryIsRead(name: string)
    requires name != "" && !Skipped(name) && Survives(name)
    ensures SplitLines("D\t" + name) == ["D\t" + name] && ReadLine("D\t" + name) == Name(name)
  {
    SplitTagged("D\t", name);
    SplitOneLine(name);
    assert "D" + "\t" == "D\t";
    CleanLineIsRead("D", name);
  }

  lemma CleanLineIsRead(tag: string, s: string)
    requires Survives(s) && (tag == "OK" || tag == "D")
    ensures ReadLine(tag + "\t" + s) ==
            if tag == "OK" then Resolved(s) else if s != "" && !Skipped(s) then Name(s) else Blank
  {
    ReadTagged(tag, s);
    TrimmedIsFixed(s);
    assert TrimCR(s) == s;
  }

  /** From those of one that does not, something shorter. */
  lemma DirtyEntryIsLost(name: string)
    requires name != "" && !Survives(name)
    ensures TotalLength(NamesIn(SplitLines("D\t" + name))) < |name|
  {
    var parts := SplitLines(name);
    var first, rest := "D\t" + parts[0], parts[1..];
    SplitTagged("D\t", name);
    NamesInAppend([first], rest);
    NamesInOne(first);
    TotalLengthAppend(NameIn(first), NamesIn(rest));
    NamesAreShorter(rest);
    LengthOfLines(name);
    assert parts == [parts[0]] + rest;
    TotalLengthCons(parts[0], rest);
    TaggedNameIsShorter(parts[0]);
    if |parts| == 1 { OneLineHasNoNewline(name); }
  }

  lemma TaggedNameIsShorter(s: string)
    ensures TotalLength(NameIn("D\t" + s)) <= |s|
    ensures !Trimmed(s) ==> TotalLength(NameIn("D\t" + s)) < |s|
  {
    assert "D" + "\t" == "D\t";
    ReadTagged("D", s);
    TrimCRShortens(s);
    var v := TrimSpace(TrimCR(s));
    TotalLengthSnoc([], v);
    assert [] + [v] == [v];
  }

  lemma OneLineHasNoNewline(s: string)
    requires |SplitLines(s)| == 1
    ensures '\n' !in s && SplitLines(s)[0] == s
  {
    LinesJoined(s);
    SplitLinesHaveNoNewline(s, 0);
  }

  lemma {:induction false} LinesJoined(s: string)
    ensures |SplitLines(s)| == 1 ==> SplitLines(s)[0] == s
  {
    if s != "" {
      LinesJoined(s[1..]);
      assert s == [s[0]] + s[1..];
    }
  }

  // ----- the theorem

  /** The lines that the entries produce. */
  function EntryLines(entries: seq<string>): seq<string>
  {
    if entries == [] then []
    else if Skipped(entries[0]) then EntryLines(entries[1..])
    else SplitLines("D\t" + entries[0]) + EntryLines(entries[1..])
  }

  lemma {:induction false} LinesOfDirLines(entries: seq<string>)
    ensures SplitLines(DirLines(entries)) == EntryLines(entries) + [""]
  {
    if entries != [] {
      LinesOfDirLines(entries[1..]);
      if !Skipped(entries[0]) {
        SplitAtNewline("D\t" + entries[0], DirLines(entries[1..]));
        Associate(SplitLines("D\t" + entries[0]), EntryLines(entries[1..]), [""]);
      }
    }
  }

  lemma LinesOfOutput(pwd: string, entries: seq<string>)
    ensures SplitLines(Output(pwd, entries)) == SplitLines("OK\t" + pwd) + EntryLines(entries) + [""]
  {
    SplitAtNewline("OK\t" + pwd, DirLines(entries));
    LinesOfDirLines(entries);
    Associate(SplitLines("OK\t" + pwd), EntryLines(entries), [""]);
  }

  ghost predicate AllSurvive(names: seq<string>)
  {
    forall i :: 0 <= i < |names| ==> Survives(names[i])
  }

  /** Every line is a name, and the names are the given ones. */
  ghost predicate AreNames(lines: seq<string>, names: seq<string>)
  {
    |lines| == |names| && forall i :: 0 <= i < |lines| ==> ReadLine(lines[i]) == Name(names[i])
  }

  ghost predicate NoneEmpty(entries: seq<string>)
  {
    forall i :: 0 <= i < |entries| ==> entries[i] != ""
  }

  lemma AreNamesCons(line: string, lines: seq<string>, name: string, names: seq<string>)
    requires ReadLine(line) == Name(name) && AreNames(lines, names)
    ensures AreNames([line] + lines, [name] + names)
  {
  }

  lemma {:induction false} CleanEntriesAreRead(entries: seq<string>)
    requires NoneEmpty(entries) && AllSurvive(Names(entries))
    ensures AreNames(EntryLines(entries), Names(entries))
  {
    if entries != [] {
      if !Skipped(entries[0]) {
        SurviveCons(entries[0], Names(entries[1..]));
        CleanEntriesAreRead(entries[1..]);
        CleanEntryIsRead(entries[0]);
        AreNamesCons("D\t" + entries[0], EntryLines(entries[1..]), entries[0], Names(entries[1..]));
      } else {
        CleanEntriesAreRead(entries[1..]);
      }
    }
  }

  lemma {:induction false} DirtyEntriesAreLost(entries: seq<string>)
    requires NoneEmpty(entries)
    ensures TotalLength(NamesIn(EntryLines(entries))) <= TotalLength(Names(entries))
    ensures !AllSurvive(Names(entries)) ==> TotalLength(NamesIn(EntryLines(entries))) < TotalLength(Names(entries))
  {
    if entries != [] {
      var rest := entries[1..];
      DirtyEntriesAreLost(rest);
      if !Skipped(entries[0]) {
        var here := SplitLines("D\t" + entries[0]);
        NamesInAppend(here, EntryLines(rest));
        TotalLengthAppend(NamesIn(here), NamesIn(EntryLines(rest)));
        TotalLengthCons(entries[0], Names(rest));
        SurviveCons(entries[0], Names(rest));
        OneEntry(entries[0]);
      }
    }
  }

  lemma OneEntry(name: string)
    requires name != "" && !Skipped(name)
    ensures TotalLength(NamesIn(SplitLines("D\t" + name))) <= |name|
    ensures !Survives(name) ==> TotalLength(NamesIn(SplitLines("D\t" + name))) < |name|
  {
    if Survives(name) {
      CleanEntryIsRead(name);
      NamesInOne("D\t" + name);
      TotalLengthCons(name, []);
      assert [name] + [] == [name];
    } else {
      DirtyEntryIsLost(name);
    }
  }

  lemma SurviveCons(name: string, names: seq<string>)
    ensures AllSurvive([name] + names) <==> Survives(name) && AllSurvive(names)
  {
    var all := [name] + names;
    assert all[0] == name && forall i :: 0 <= i < |names| ==> all[i + 1] == names[i];
  }

  lemma {:induction false} NamesOfNames(lines: seq<string>, names: seq<string>)
    requires AreNames(lines, names)
    ensures NamesIn(lines) == names && !AnyFailed(lines) && !AnyResolved(lines)
  {
    if lines != [] {
      NamesOfNames(Init(lines), Init(names));
      assert names == Init(names) + [Last(names)];
    }
  }

  lemma {:induction false} LastResolvedSurvives(lines: seq<string>)
    requires forall i :: 0 <= i < |lines| ==> '\n' !in lines[i]
    ensures Survives(LastResolved(lines))
  {
    if lines != [] {
      var line := Last(lines);
      LastResolvedSurvives(Init(lines));
      var s := TrimCR(line);
      var i := IndexOf(s, '\t');
      if ReadLine(line).Resolved? {
        var left, right := TrimSpaceSplits(s[i + 1..]);
        assert forall c :: c in ReadLine(line).path ==> c in s[i + 1..];
        assert forall c :: c in s[i + 1..] ==> c in line;
      }
    }
  }

  lemma SameTotalLength(a: seq<string>, b: seq<string>)
    requires multiset(a) == multiset(b)
    ensures TotalLength(a) == TotalLength(b)
    decreases |a|
  {
    assert |multiset(a)| == |a| && |multiset(b)| == |b|;
    if a != [] {
      SameElements(a, b, Last(a));
      var i :| 0 <= i < |b| && b[i] == Last(a);
      var others := b[..i] + b[i + 1..];
      assert a == Init(a) + [Last(a)];
      assert b == b[..i] + [b[i]] + b[i + 1..];
      assert multiset(others) == multiset(b) - multiset{b[i]};
      assert multiset(Init(a)) == multiset(a) - multiset{Last(a)};
      SameTotalLength(Init(a), others);
      TotalLengthAppend(b[..i] + [b[i]], b[i + 1..]);
      TotalLengthAppend(b[..i], [b[i]]);
      TotalLengthAppend(b[..i], b[i + 1..]);
    }
  }

  /** What the parser makes of an output. */
  ghost predicate Recovers(stdout: string, pwd: string, names: seq<string>)
  {
    var lines := SplitLines(stdout);
    && AnyResolved(lines) && !AnyFailed(lines) && LastResolved(lines) == pwd
    && SortStrings(NamesIn(lines)) == SortStrings(names)
  }

  /** The path and the sorted names come back exactly when the path and every name are single lines without
      white space at their ends. */
  lemma RecoversIff(pwd: string, entries: seq<string>)
    requires NoneEmpty(entries)
    ensures Recovers(Output(pwd, entries), pwd, Names(entries)) <==> Survives(pwd) && AllSurvive(Names(entries))
  {
    if Survives(pwd) && AllSurvive(Names(entries)) {
      CleanOutputIsRecovered(pwd, entries);
    }
    if Recovers(Output(pwd, entries), pwd, Names(entries)) {
      RecoveredOutputIsClean(pwd, entries);
    }
  }

  lemma PathLine(pwd: string)
    requires Survives(pwd)
    ensures SplitLines("OK\t" + pwd) == ["OK\t" + pwd] && ReadLine("OK\t" + pwd) == Resolved(pwd)
  {
    SplitTagged("OK\t", pwd);
    SplitOneLine(pwd);
    assert "OK" + "\t" == "OK\t";
    CleanLineIsRead("OK", pwd);
  }

  lemma CleanOutputIsRecovered(pwd: string, entries: seq<string>)
    requires NoneEmpty(entries) && Survives(pwd) && AllSurvive(Names(entries))
    ensures Recovers(Output(pwd, entries), pwd, Names(entries))
  {
    LinesOfOutput(pwd, entries);
    PathLine(pwd);
    CleanEntriesAreRead(entries);
    NamesOfNames(EntryLines(entries), Names(entries));
    FrameOfNames("OK\t" + pwd, EntryLines(entries));
  }

  lemma NamesInFrame(first: string, lines: seq<string>)
    requires ReadLine(first).Resolved?
    ensures NamesIn([first] + lines + [""]) == NamesIn(lines)
  {
    NamesInAppend([first] + lines, [""]);
    NamesInAppend([first], lines);
    NamesInOne(first);
    NamesInOne("");
  }

  /** A path line before, and the empty line after, the lines of the names. */
  lemma FrameOfNames(first: string, lines: seq<string>)
    requires ReadLine(first).Resolved? && !AnyFailed(lines) && !AnyResolved(lines)
    ensures var all := [first] + lines + [""];
            && NamesIn(all) == NamesIn(lines) && AnyResolved(all) && !AnyFailed(all)
            && LastResolved(all) == ReadLine(first).path
  {
    var all := [first] + lines + [""];
    NamesInFrame(first, lines);
    assert all[0] == first;
    forall i | 0 <= i < |all| ensures !ReadLine(all[i]).Failed? {
      if 0 < i < |all| - 1 { assert all[i] == lines[i - 1]; }
    }
    assert Init(all) == [first] + lines && Last(all) == "";
    LastResolvedBefore(first, lines);
  }

  lemma {:induction false} LastResolvedBefore(first: string, lines: seq<string>)
    requires ReadLine(first).Resolved? && !AnyResolved(lines)
    ensures LastResolved([first] + lines) == ReadLine(first).path
  {
    var all := [first] + lines;
    if lines == [] {
      assert Last(all) == first;
    } else {
      assert Init(all) == [first] + Init(lines) && Last(all) == lines[|lines| - 1];
      LastResolvedBefore(first, Init(lines));
    }
  }

  lemma RecoveredOutputIsClean(pwd: string, entries: seq<string>)
    requires NoneEmpty(entries) && Recovers(Output(pwd, entries), pwd, Names(entries))
    ensures Survives(pwd) && AllSurvive(Names(entries))
  {
    var lines := SplitLines(Output(pwd, entries));
    forall i | 0 <= i < |lines| ensures '\n' !in lines[i] { SplitLinesHaveNoNewline(Output(pwd, entries), i); }
    LastResolvedSurvives(lines);
    LinesOfOutput(pwd, entries);
    PathLine(pwd);
    NamesInFrame("OK\t" + pwd, EntryLines(entries));
    SortStringsSorts(NamesIn(lines));
    SortStringsSorts(Names(entries));
    SameTotalLength(NamesIn(lines), Names(entries));
    DirtyEntriesAreLost(entries);
  }
}
