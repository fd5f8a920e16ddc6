/** The text form of a cookie jar: how records are printed, how a file is cut into lines and fields,
    and which round trips hold. Reading and writing the file itself is replaced by strings. */
module CookieText {
  import opened Sequences

  datatype CookieInfo = CookieInfo(
    domain: string, tailMatch: bool, path: string, secure: bool, expires: string, name: string, value: string)

  // ---------------------------------------------------------------- cutting text

  /** Where `c` first occurs in `s`, or `|s|`. */
  function Find(s: string, c: char): (i: nat)
    ensures i <= |s| && c !in s[..i]
    ensures i < |s| ==> s[i] == c
  {
    if s == "" || s[0] == c then 0
    else
      var i := Find(s[1..], c);
      assert s[..i + 1] == [s[0]] + s[1..][..i];
      i + 1
  }

  /** What repeated `std::getline(stream, item, d)` yields: a delimiter at the very end opens no
      further empty token. */
  function Tokens(s: string, d: char): seq<string> {
    if s == "" then []
    else
      var i := Find(s, d);
      if i == |s| then [s] else [s[..i]] + Tokens(s[i + 1..], d)
  }

  lemma {:induction false} FindIs(s: string, c: char, i: nat)
    requires i <= |s| && c !in s[..i] && (i < |s| ==> s[i] == c)
    ensures Find(s, c) == i
  {
    if i > 0 {
      assert s[0] in s[..i] && s[1..][..i - 1] == s[..i][1..];
      FindIs(s[1..], c, i - 1);
    }
  }

  lemma {:induction false} FirstToken(a: string, rest: string, d: char)
    requires d !in a
    ensures Tokens(a + [d] + rest, d) == [a] + Tokens(rest, d)
  {
    var s := a + [d] + rest;
    assert s[..|a|] == a && s[|a|] == d && s[|a| + 1..] == rest;
    FindIs(s, d, |a|);
  }

  lemma {:induction false} OnlyToken(a: string, d: char)
    requires d !in a
    ensures Tokens(a, d) == if a == "" then [] else [a]
  {
    assert a[..|a|] == a;
    FindIs(a, d, |a|);
  }

  /** What is left of a stream once its first token is read. */
  function Unread(s: string, d: char): (rest: string)
    requires s != ""
    ensures |rest| < |s|
  {
    var i := Find(s, d);
    if i == |s| then "" else s[i + 1..]
  }

  /** `cut` and the tokens still to be read make `whole`. */
  ghost predicate IsCut(whole: seq<string>, cut: seq<string>, unread: string, d: char) {
    cut + Tokens(unread, d) == whole
  }

  /** Reading one more token keeps `whole` made up. */
  lemma {:induction false} TakeToken(whole: seq<string>, cut: seq<string>, unread: string, d: char)
    requires unread != "" && IsCut(whole, cut, unread, d)
    ensures IsCut(whole, cut + [unread[..Find(unread, d)]], Unread(unread, d), d)
  {
    var item, rest := unread[..Find(unread, d)], Tokens(Unread(unread, d), d);
    assert Tokens(unread, d) == [item] + rest by {
      if Find(unread, d) == |unread| {
        assert item == unread && rest == [];
      }
    }
    Associate(cut, [item], rest);
  }

  /** Fields separated by `d`, with none after the last. */
  function Joined(fields: seq<string>, d: char): string {
    if fields == [] then ""
    else if |fields| == 1 then fields[0]
    else fields[0] + [d] + Joined(fields[1..], d)
  }

  /** The tokens of joined fields are the fields, but for an empty last one. */
  function Visible(fields: seq<string>): seq<string>
    requires fields != []
  {
    if fields[|fields| - 1] == "" then fields[..|fields| - 1] else fields
  }

  lemma {:induction false} VisibleTail(fields: seq<string>)
    requires |fields| > 1
    ensures Visible(fields) == [fields[0]] + Visible(fields[1..])
  {
  }

  lemma {:induction false} TokensOfJoined(fields: seq<string>, d: char)
    requires fields != [] && forall i :: 0 <= i < |fields| ==> d !in fields[i]
    ensures Tokens(Joined(fields, d), d) == Visible(fields)
  {
    if |fields| == 1 {
      OnlyToken(fields[0], d);
      assert fields == [fields[0]];
    } else {
      TokensOfJoined(fields[1..], d);
      FirstToken(fields[0], Joined(fields[1..], d), d);
      VisibleTail(fields);
    }
  }

  lemma {:induction false} JoinedAppend(fields: seq<string>, d: char, x: string)
    requires fields != []
    ensures Joined(fields + [x], d) == Joined(fields, d) + [d] + x
  {
    var all := fields + [x];
    if |fields| == 1 {
      assert all[1..] == [x];
    } else {
      assert all[1..] == fields[1..] + [x];
      JoinedAppend(fields[1..], d, x);
      assert fields[0] + [d] + (Joined(fields[1..], d) + [d] + x)
          == (fields[0] + [d] + Joined(fields[1..], d)) + [d] + x;
    }
  }

  lemma {:induction false} JoinedFree(fields: seq<string>, d: char, x: char)
    requires x != d && forall i :: 0 <= i < |fields| ==> x !in fields[i]
    ensures x !in Joined(fields, d)
  {
    if |fields| > 1 {
      JoinedFree(fields[1..], d, x);
    }
  }

  /** No token contains the delimiter, and nothing else is added. */
  lemma {:induction false} TokensAreParts(s: string, d: char)
    ensures forall t :: t in Tokens(s, d) ==> d !in t && forall x :: x in t ==> x in s
    decreases |s|
  {
    if s != "" {
      var i := Find(s, d);
      if i == |s| {
        assert s[..i] == s;
      } else {
        TokensAreParts(s[i + 1..], d);
      }
    }
  }

  // ---------------------------------------------------------------- one record

  /** What a C string function sees of a string: everything before the first NUL. */
  function CString(s: string): string {
    s[..Find(s, '\0')]
  }

  function Flag(b: bool): string {
    if b then "TRUE" else "FALSE"
  }

  predicate IsTrue(field: string) {
    CString(field) == "TRUE"
  }

  function Fields(c: CookieInfo): seq<string> {
    [c.domain, Flag(c.tailMatch), c.path, Flag(c.secure), c.expires, c.name, c.value]
  }

  /** One printed record: the seven fields separated by tabs. */
  function Record(c: CookieInfo): string {
    Joined(Fields(c), '\t')
  }

  /** The domain without its leading dot. */
  function Undotted(domain: string): string {
    if domain != "" && domain[0] == '.' then domain[1..] else domain
  }

  /** One line of the file taken apart. With fewer than seven fields the code indexes past the end
      of its vector, which has no defined outcome. */
  function ParseRecord(line: string): Option<CookieInfo> {
    var elems := Tokens(line, '\t');
    if |elems| < 7 then None
    else
      Some(CookieInfo(Undotted(elems[0]), IsTrue(elems[1]), elems[2], IsTrue(elems[3]), elems[4], elems[5], elems[6]))
  }

  /** `x` occurs in no text field. */
  predicate Free(c: CookieInfo, x: char) {
    x !in c.domain && x !in c.path && x !in c.expires && x !in c.name && x !in c.value
  }

  lemma {:induction false} FlagsReadBack(b: bool)
    ensures IsTrue(Flag(b)) == b && '\t' !in Flag(b) && '\n' !in Flag(b) && '#' !in Flag(b) && '\0' !in Flag(b)
  {
    var f := Flag(b);
    assert f[..|f|] == f;
    FindIs(f, '\0', |f|);
    assert CString(f) == f;
    assert f[0] == if b then 'T' else 'F';
  }

  lemma {:induction false} RecordTokens(c: CookieInfo)
    requires Free(c, '\t')
    ensures Tokens(Record(c), '\t') == Visible(Fields(c))
  {
    FlagsReadBack(c.tailMatch);
    FlagsReadBack(c.secure);
    TokensOfJoined(Fields(c), '\t');
  }

  /** The field parsing alone: a record taken apart gives the cookie back, but for one leading dot of
      its domain, if and only if no field holds a tab and the value is not empty. */
  lemma {:induction false} RecordRoundTripExactly(c: CookieInfo)
    ensures ParseRecord(Record(c)) == Some(c.(domain := Undotted(c.domain))) <==> Free(c, '\t') && c.value != ""
    ensures Free(c, '\t') && c.value == "" ==> ParseRecord(Record(c)) == None
  {
    if Free(c, '\t') {
      RecordTokens(c);
      FlagsReadBack(c.tailMatch);
      FlagsReadBack(c.secure);
    } else if ParseRecord(Record(c)).Some? {
      ParsedFieldsAreParts(Record(c), '\t');
      assert '\t' in c.domain ==> '\t' in Undotted(c.domain);
    }
  }

  /** A parsed cookie's fields hold no tab, and only characters of the line. */
  lemma {:induction false} ParsedFieldsAreParts(line: string, x: char)
    requires ParseRecord(line).Some? && (x == '\t' || x !in line)
    ensures Free(ParseRecord(line).value, x)
  {
    TokensAreParts(line, '\t');
    var elems := Tokens(line, '\t');
    assert forall i :: 0 <= i < |elems| ==> elems[i] in elems;
    assert forall i :: 0 <= i < |elems| ==> x !in elems[i];
  }

  // ---------------------------------------------------------------- a whole file

  /** The cookies `readFile` collected, and whether it got through without undefined behaviour. */
  datatype Reading = Reading(cookies: seq<CookieInfo>, defined: bool)

  predicate Skipped(line: string) {
    line == "" || line[0] == '#'
  }

  function ReadLines(lines: seq<string>): Reading {
    if lines == [] then Reading([], true)
    else
      var r, last := ReadLines(lines[..|lines| - 1]), lines[|lines| - 1];
      if !r.defined || Skipped(last) then r
      else if ParseRecord(last).None? then Reading(r.cookies, false)
      else Reading(r.cookies + [ParseRecord(last).value], true)
  }

  function ReadText(text: string): Reading {
    ReadLines(Tokens(text, '\n'))
  }

  const HEADER1 := "#" + " Netscape HTTP Cookie File"
  const HEADER2 := "#" + " http://curl.haxx.se/" + "docs/http-cookies.html"
  const HEADER3 := "#" + " This file was generated by" + " HttpClient! Edit at your own risk."
  const HEADER4 := "#" + " Test HttpClient cookie write"

  /** `fputs` stops at a NUL. */
  function Records(cookies: seq<CookieInfo>): string {
    if cookies == [] then "" else Records(cookies[..|cookies| - 1]) + CString(Record(cookies[|cookies| - 1]))
  }

  function FileLines(cookies: seq<CookieInfo>): seq<string> {
    [HEADER1, HEADER2, HEADER3, HEADER4 + Records(cookies)]
  }

  /** What `writeFile` writes: no newline after the header's last line, none after a record. */
  function FileText(cookies: seq<CookieInfo>): string {
    Joined(FileLines(cookies), '\n')
  }

  lemma {:induction false} RecordFree(c: CookieInfo)
    requires Free(c, '\n')
    ensures '\n' !in Record(c) && '\n' !in CString(Record(c))
  {
    FlagsReadBack(c.tailMatch);
    FlagsReadBack(c.secure);
    JoinedFree(Fields(c), '\t', '\n');
  }

  lemma {:induction false} RecordsFree(cookies: seq<CookieInfo>)
    requires forall i :: 0 <= i < |cookies| ==> Free(cookies[i], '\n')
    ensures '\n' !in Records(cookies)
  {
    if cookies != [] {
      RecordsFree(cookies[..|cookies| - 1]);
      RecordFree(cookies[|cookies| - 1]);
    }
  }

  lemma {:induction false} ReadSkippedLines(lines: seq<string>)
    requires forall i :: 0 <= i < |lines| ==> Skipped(lines[i])
    ensures ReadLines(lines) == Reading([], true)
  {
    if lines != [] {
      ReadSkippedLines(lines[..|lines| - 1]);
    }
  }

  lemma {:induction false} HeaderFree()
    ensures '\n' !in HEADER1 && '\n' !in HEADER2 && '\n' !in HEADER3 && '\n' !in HEADER4
  {
    Header14Free();
    Header2Free();
    Header3Free();
  }

  lemma {:induction false} Header14Free()
    ensures '\n' !in " Netscape HTTP Cookie File" && '\n' !in " Test HttpClient cookie write"
  {
  }

  lemma {:induction false} Header2Free()
    ensures '\n' !in " http://curl.haxx.se/" && '\n' !in "docs/http-cookies.html"
  {
  }

  lemma {:induction false} Header3Free()
    ensures '\n' !in " This file was generated by" && '\n' !in " HttpClient! Edit at your own risk."
  {
  }

  lemma {:induction false} HeaderIsComment(cookies: seq<CookieInfo>)
    ensures forall i :: 0 <= i < |FileLines(cookies)| ==> Skipped(FileLines(cookies)[i])
  {
    assert HEADER1[0] == '#' && HEADER2[0] == '#' && HEADER3[0] == '#';
    assert (HEADER4 + Records(cookies))[0] == '#';
  }

  /** Unless some cookie holds a newline, everything written ends up on the header's comment line,
      and reading the file back finds no cookie at all. */
  lemma {:induction false} WrittenCookiesVanish(cookies: seq<CookieInfo>)
    requires forall i :: 0 <= i < |cookies| ==> Free(cookies[i], '\n')
    ensures ReadText(FileText(cookies)) == Reading([], true)
  {
    RecordsFree(cookies);
    HeaderFree();
    HeaderIsComment(cookies);
    TokensOfJoined(FileLines(cookies), '\n');
    ReadSkippedLines(FileLines(cookies));
  }

  /** Nothing read from lines holds a tab, or a character that is in none of them. */
  lemma {:induction false} ReadCookiesFree(lines: seq<string>, x: char)
    requires x == '\t' || forall i :: 0 <= i < |lines| ==> x !in lines[i]
    ensures forall i :: 0 <= i < |ReadLines(lines).cookies| ==> Free(ReadLines(lines).cookies[i], x)
  {
    if lines != [] {
      ReadCookiesFree(lines[..|lines| - 1], x);
      var last := lines[|lines| - 1];
      if ParseRecord(last).Some? {
        ParsedFieldsAreParts(last, x);
      }
    }
  }

  /** Nothing read from a text holds a tab, a newline, or a character that is not in the text. */
  lemma {:induction false} ReadTextFree(text: string, x: char)
    requires x == '\t' || x == '\n' || x !in text
    ensures forall i :: 0 <= i < |ReadText(text).cookies| ==> Free(ReadText(text).cookies[i], x)
  {
    var lines := Tokens(text, '\n');
    TokensAreParts(text, '\n');
    assert forall i :: 0 <= i < |lines| ==> lines[i] in lines;
    ReadCookiesFree(lines, x);
  }

  /** Writing a jar and reading the file back gives the jar back if and only if it is empty. */
  lemma {:induction false} FileRoundTripOnlyWhenEmpty(cookies: seq<CookieInfo>)
    ensures ReadText(FileText(cookies)) == Reading(cookies, true) <==> cookies == []
  {
    var text := FileText(cookies);
    if cookies == [] {
      WrittenCookiesVanish(cookies);
    } else if ReadText(text).cookies == cookies {
      ReadTextFree(text, '\n');
      WrittenCookiesVanish(cookies);
    }
  }

  // ---------------------------------------------------------------- a properly written file

  datatype Line = Blank | Comment(text: string) | Entry(cookie: CookieInfo)

  predicate WellWritten(line: Line) {
    match line
    case Blank => true
    case Comment(text) => '\n' !in text
    case Entry(c) => Free(c, '\t') && Free(c, '\n') && c.value != "" && (c.domain == "" || c.domain[0] != '#')
  }

  function Render(line: Line): string {
    match line
    case Blank => ""
    case Comment(text) => "#" + text
    case Entry(c) => Record(c)
  }

  /** The lines, each ended by a newline. */
  function Text(lines: seq<Line>): string {
    if lines == [] then "" else Render(lines[0]) + "\n" + Text(lines[1..])
  }

  function Rendered(lines: seq<Line>): seq<string> {
    if lines == [] then [] else [Render(lines[0])] + Rendered(lines[1..])
  }

  /** The cookies of the entries, in order, each without its domain's leading dot. */
  function Cookies(lines: seq<Line>): seq<CookieInfo> {
    if lines == [] then []
    else
      (match lines[0] case Entry(c) => [c.(domain := Undotted(c.domain))] case _ => []) + Cookies(lines[1..])
  }

  lemma {:induction false} TextTokens(lines: seq<Line>)
    requires forall i :: 0 <= i < |lines| ==> WellWritten(lines[i])
    ensures Tokens(Text(lines), '\n') == Rendered(lines)
  {
    if lines != [] {
      TextTokens(lines[1..]);
      if lines[0].Entry? {
        RecordFree(lines[0].cookie);
      }
      FirstToken(Render(lines[0]), Text(lines[1..]), '\n');
    }
  }

  lemma {:induction false} ReadFirstLine(line: string, rest: seq<string>)
    requires ReadLines(rest).defined && (Skipped(line) || ParseRecord(line).Some?)
    ensures ReadLines([line] + rest).defined
    ensures ReadLines([line] + rest).cookies ==
      (if Skipped(line) then [] else [ParseRecord(line).value]) + ReadLines(rest).cookies
  {
    var all := [line] + rest;
    if rest == [] {
      assert all[..0] == [] && all[0] == line && all[..|all| - 1] == [];
    } else {
      assert all[..|all| - 1] == [line] + rest[..|rest| - 1];
      ReadFirstLine(line, rest[..|rest| - 1]);
    }
  }

  lemma {:induction false} RecordNotSkipped(c: CookieInfo)
    requires c.domain == "" || c.domain[0] != '#'
    ensures !Skipped(Record(c))
  {
    assert Record(c)[0] == if c.domain == "" then '\t' else c.domain[0];
  }

  /** A file of blank lines, comments and clean records, one per line, reads as exactly its cookies
      in order, whether or not the last line is ended by a newline. */
  lemma {:induction false} ProperFileReadsBack(lines: seq<Line>)
    requires forall i :: 0 <= i < |lines| ==> WellWritten(lines[i])
    ensures ReadText(Text(lines)) == Reading(Cookies(lines), true)
    ensures ReadText(Joined(Rendered(lines), '\n')) == Reading(Cookies(lines), true)
  {
    TextTokens(lines);
    RenderedReadBack(lines);
    if lines != [] {
      RenderedFree(lines);
      TokensOfJoined(Rendered(lines), '\n');
    }
  }

  lemma {:induction false} RenderedFree(lines: seq<Line>)
    requires forall i :: 0 <= i < |lines| ==> WellWritten(lines[i])
    ensures |Rendered(lines)| == |lines|
    ensures forall i :: 0 <= i < |lines| ==> '\n' !in Rendered(lines)[i]
  {
    if lines != [] {
      RenderedFree(lines[1..]);
      if lines[0].Entry? {
        RecordFree(lines[0].cookie);
      }
    }
  }

  lemma {:induction false} RenderedReadBack(lines: seq<Line>)
    requires forall i :: 0 <= i < |lines| ==> WellWritten(lines[i])
    ensures ReadLines(Rendered(lines)) == Reading(Cookies(lines), true)
  {
    if lines != [] {
      RenderedReadBack(lines[1..]);
      if lines[0].Entry? {
        RecordRoundTripExactly(lines[0].cookie);
        RecordNotSkipped(lines[0].cookie);
      }
      ReadFirstLine(Render(lines[0]), Rendered(lines[1..]));
    }
  }

  // ---------------------------------------------------------------- one record, end to end

  /** What `fputs` puts in the file for one cookie, and a newline. */
  function Printed(c: CookieInfo): string {
    CString(Record(c)) + "\n"
  }

  lemma {:induction false} CStringFree(s: string)
    ensures '\0' !in CString(s) && ('\0' !in s ==> CString(s) == s)
  {
    if '\0' !in s {
      assert s[..|s|] == s;
      FindIs(s, '\0', |s|);
    }
  }

  /** What survives `fputs` and `std::getline` is one line, the record. */
  lemma {:induction false} PrintedIsOneLine(c: CookieInfo)
    requires Free(c, '\n') && Free(c, '\0')
    ensures Tokens(Printed(c), '\n') == [Record(c)]
  {
    FlagsReadBack(c.tailMatch);
    FlagsReadBack(c.secure);
    JoinedFree(Fields(c), '\t', '\0');
    CStringFree(Record(c));
    RecordFree(c);
    FirstToken(Record(c), "", '\n');
    assert Printed(c) == Record(c) + ['\n'] + "";
  }

  lemma {:induction false} ReadOneLine(line: string)
    ensures ReadLines([line]) ==
      if Skipped(line) then Reading([], true)
      else if ParseRecord(line).None? then Reading([], false)
      else Reading([ParseRecord(line).value], true)
  {
    assert [line][..0] == [];
    assert ReadLines([line][..0]) == Reading([], true);
  }

  predicate ReadsBack(c: CookieInfo) {
    ReadText(Printed(c)) == Reading([c.(domain := Undotted(c.domain))], true)
  }

  /** A printed cookie, read back by `readFile`, is the cookie, but for one leading dot of its
      domain, if and only if no field holds a tab, a newline or a NUL, the value is not empty and
      the domain does not begin with `#`. */
  lemma {:induction false} CookieReadsBackExactly(c: CookieInfo)
    ensures ReadsBack(c) <==>
      && Free(c, '\t') && Free(c, '\n') && Free(c, '\0')
      && c.value != "" && (c.domain == "" || c.domain[0] != '#')
  {
    if ReadsBack(c) {
      CStringFree(Record(c));
      OnlyFreeReadsBack(c, '\t');
      OnlyFreeReadsBack(c, '\n');
      OnlyFreeReadsBack(c, '\0');
    }
    if Free(c, '\t') && Free(c, '\n') && Free(c, '\0') {
      PrintedIsOneLine(c);
      ReadOneLine(Record(c));
      RecordRoundTripExactly(c);
      assert Skipped(Record(c)) <==> c.domain != "" && c.domain[0] == '#' by {
        assert Record(c)[0] == if c.domain == "" then '\t' else c.domain[0];
      }
    }
  }

  lemma {:induction false} OnlyFreeReadsBack(c: CookieInfo, x: char)
    requires ReadsBack(c) && (x == '\t' || x == '\n' || x !in Printed(c)) && x != '.'
    ensures Free(c, x)
  {
    ReadTextFree(Printed(c), x);
    assert Free(ReadText(Printed(c)).cookies[0], x);
    assert x in c.domain ==> x in Undotted(c.domain);
  }

  /** A cookie whose domain begins with `#` is read as a comment, and so lost. */
  lemma {:induction false} HashDomainIsLost(c: CookieInfo)
    requires Free(c, '\n') && Free(c, '\0') && c.domain != "" && c.domain[0] == '#'
    ensures ReadText(Printed(c)) == Reading([], true)
  {
    PrintedIsOneLine(c);
    ReadOneLine(Record(c));
    assert Record(c)[0] == c.domain[0];
  }

  /** For instance this one. */
  lemma {:induction false} SomeHashDomainIsLost() returns (c: CookieInfo)
    ensures c == CookieInfo("#a", true, "/", true, "0", "n", "v")
    ensures Free(c, '\t') && c.value != "" && ReadText(Printed(c)) == Reading([], true)
  {
    c := HashDomain();
    HashDomainIsLost(c);
  }

  lemma {:induction false} HashDomain() returns (c: CookieInfo)
    ensures c == CookieInfo("#a", true, "/", true, "0", "n", "v")
    ensures Free(c, '\t') && Free(c, '\n') && Free(c, '\0') && c.value != "" && c.domain != "" && c.domain[0] == '#'
  {
    c := CookieInfo("#a", true, "/", true, "0", "n", "v");
  }

  // ---------------------------------------------------------------- the format, spelled out

  /** The fields of a line that `readFile` keeps hold neither tab nor newline. */
  predicate Plain(field: string) {
    '\t' !in field && '\n' !in field
  }

  lemma {:induction false} SevenTokens(
      f0: string, f1: string, f2: string, f3: string, f4: string, f5: string, f6: string)
    requires Plain(f0) && Plain(f1) && Plain(f2) && Plain(f3) && Plain(f4) && Plain(f5) && Plain(f6) && f6 != ""
    ensures var line := Joined([f0, f1, f2, f3, f4, f5, f6], '\t');
            Tokens(line, '\t') == [f0, f1, f2, f3, f4, f5, f6] && '\n' !in line
  {
    var fields := [f0, f1, f2, f3, f4, f5, f6];
    TokensOfJoined(fields, '\t');
    JoinedFree(fields, '\t', '\n');
  }

  lemma {:induction false} SevenJoined(
      f0: string, f1: string, f2: string, f3: string, f4: string, f5: string, f6: string)
    ensures Joined([f0, f1, f2, f3, f4, f5, f6], '\t')
         == f0 + "\t" + f1 + "\t" + f2 + "\t" + f3 + "\t" + f4 + "\t" + f5 + "\t" + f6
  {
    JoinedAppend([f0], '\t', f1);
    JoinedAppend([f0, f1], '\t', f2);
    JoinedAppend([f0, f1, f2], '\t', f3);
    JoinedAppend([f0, f1, f2, f3], '\t', f4);
    JoinedAppend([f0, f1, f2, f3, f4], '\t', f5);
    JoinedAppend([f0, f1, f2, f3, f4, f5], '\t', f6);
    assert [f0] + [f1] == [f0, f1] && [f0, f1] + [f2] == [f0, f1, f2] && [f0, f1, f2] + [f3] == [f0, f1, f2, f3];
    assert [f0, f1, f2, f3] + [f4] == [f0, f1, f2, f3, f4] && [f0, f1, f2, f3, f4] + [f5] == [f0, f1, f2, f3, f4, f5];
    assert [f0, f1, f2, f3, f4, f5] + [f6] == [f0, f1, f2, f3, f4, f5, f6];
  }

  /** A flag is set by exactly the text `TRUE`. */
  lemma {:induction false} FlagRead(field: string)
    requires '\0' !in field
    ensures IsTrue(field) <==> field == "TRUE"
  {
    CStringFree(field);
  }

  /** `domain` without one leading dot is `name`. */
  predicate DropsDot(domain: string, name: string) {
    domain == "." + name || (domain == name && (domain == "" || domain[0] != '.'))
  }

  /** What `readFile` makes of any one line of fields without tab, newline or NUL: with fewer than
      seven (an empty last one does not count) the code has no defined outcome; with seven or more,
      the cookie with the first seven in the order domain, flag, path, flag, expiry, name, value. */
  lemma {:induction false} LineIsRead(fields: seq<string>, name: string)
    requires fields != [] && fields != [""]
    requires forall i :: 0 <= i < |fields| ==> Plain(fields[i]) && '\0' !in fields[i]
    requires (fields[0] == "" || fields[0][0] != '#') && DropsDot(fields[0], name)
    ensures var n := if fields[|fields| - 1] == "" then |fields| - 1 else |fields|;
            ReadText(Joined(fields, '\t') + "\n") ==
              if n < 7 then Reading([], false)
              else Reading([CookieInfo(name, fields[1] == "TRUE", fields[2], fields[3] == "TRUE",
                                       fields[4], fields[5], fields[6])], true)
  {
    var line := Joined(fields, '\t');
    TokensOfJoined(fields, '\t');
    JoinedFree(fields, '\t', '\n');
    FirstToken(line, "", '\n');
    assert line + "\n" == line + ['\n'] + "";
    ReadOneLine(line);
    assert |fields| > 1 ==> line[0] == if fields[0] == "" then '\t' else fields[0][0];
    assert |fields| == 1 ==> line == fields[0];
    if |fields| >= 7 {
      FlagRead(fields[1]);
      FlagRead(fields[3]);
    }
  }

  /** A line of seven fields, flags `TRUE` or `FALSE`, is read as the cookie with those fields in the
      order domain, flag, path, flag, expiry, name, value, and with one leading dot of the domain
      taken off. */
  lemma {:induction false} SevenFieldsAreRead(
      domain: string, tail: bool, path: string, secure: bool, expires: string, name: string, value: string)
    requires Plain(domain) && Plain(path) && Plain(expires) && Plain(name) && Plain(value) && value != ""
    requires domain == "" || domain[0] != '#'
    ensures var line := domain + "\t" + (if tail then "TRUE" else "FALSE") + "\t" + path + "\t" +
                        (if secure then "TRUE" else "FALSE") + "\t" + expires + "\t" + name + "\t" + value;
            ReadText(line + "\n") ==
              Reading([CookieInfo(if domain != "" && domain[0] == '.' then domain[1..] else domain,
                                  tail, path, secure, expires, name, value)], true)
  {
    var t, s := if tail then "TRUE" else "FALSE", if secure then "TRUE" else "FALSE";
    FlagsReadBack(tail);
    FlagsReadBack(secure);
    assert '\0' !in t && '\0' !in s;
    FlagRead(t);
    FlagRead(s);
    SevenTokens(domain, t, path, s, expires, name, value);
    SevenJoined(domain, t, path, s, expires, name, value);
    var line := Joined([domain, t, path, s, expires, name, value], '\t');
    assert line[0] == if domain == "" then '\t' else domain[0];
    FirstToken(line, "", '\n');
    assert line + "\n" == line + ['\n'] + "";
    ReadOneLine(line);
  }

  /** So the record of a cookie with the domain `"." + d` is read as the cookie with the domain `d`,
      and a record whose domain begins with no dot as the cookie itself. */
  lemma {:induction false} DotIsTakenOff(c: CookieInfo, d: string)
    requires Free(c, '\t') && Free(c, '\n') && Free(c, '\0') && c.value != ""
    ensures c.domain == "." + d ==> ReadText(Printed(c)) == Reading([c.(domain := d)], true)
    ensures (c.domain == "" || (c.domain[0] != '.' && c.domain[0] != '#')) ==>
      ReadText(Printed(c)) == Reading([c], true)
  {
    CookieReadsBackExactly(c);
    assert c.domain == "." + d ==> c.domain[1..] == d && c.domain[0] == '.';
  }

  /** What `writeFile` prints for a cookie, spelled out. */
  lemma {:induction false} RecordSpelledOut(c: CookieInfo)
    ensures Record(c) ==
      c.domain + "\t" + (if c.tailMatch then "TRUE" else "FALSE") + "\t" + c.path + "\t" +
      (if c.secure then "TRUE" else "FALSE") + "\t" + c.expires + "\t" + c.name + "\t" + c.value
  {
    SevenJoined(c.domain, Flag(c.tailMatch), c.path, Flag(c.secure), c.expires, c.name, c.value);
  }

  /** `fputs` prints what comes before the first NUL. */
  lemma {:induction false} CStringCuts(before: string, after: string)
    requires '\0' !in before
    ensures CString(before + "\0" + after) == before && CString(before) == before
  {
    var s := before + "\0" + after;
    assert s[..|before|] == before && s[|before|] == '\0';
    FindIs(s, '\0', |before|);
    CStringFree(before);
  }

  /** The file of a jar with one more cookie is the file of the jar and one more record. */
  lemma {:induction false} FileGrows(cookies: seq<CookieInfo>, c: CookieInfo)
    ensures FileText(cookies + [c]) == FileText(cookies) + CString(Record(c))
    ensures FileText([]) == HEADER1 + "\n" + HEADER2 + "\n" + HEADER3 + "\n" + HEADER4
  {
    assert (cookies + [c])[..|cookies|] == cookies;
    FileJoined(cookies);
    FileJoined(cookies + [c]);
    FileJoined([]);
    Associate(HEADER1 + "\n" + HEADER2 + "\n" + HEADER3 + "\n" + HEADER4, Records(cookies), CString(Record(c)));
  }

  lemma {:induction false} FileJoined(cookies: seq<CookieInfo>)
    ensures FileText(cookies) == (HEADER1 + "\n" + HEADER2 + "\n" + HEADER3 + "\n" + HEADER4) + Records(cookies)
  {
    var last := HEADER4 + Records(cookies);
    JoinedAppend([HEADER1], '\n', HEADER2);
    JoinedAppend([HEADER1, HEADER2], '\n', HEADER3);
    JoinedAppend([HEADER1, HEADER2, HEADER3], '\n', last);
    assert [HEADER1] + [HEADER2] == [HEADER1, HEADER2];
    assert [HEADER1, HEADER2] + [HEADER3] == [HEADER1, HEADER2, HEADER3];
    assert [HEADER1, HEADER2, HEADER3] + [last] == FileLines(cookies);
  }
}
