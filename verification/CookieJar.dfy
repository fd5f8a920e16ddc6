/** The jar in memory: an insertion-ordered map from domain to cookie, and the object that keeps it. */
module CookieJars {
  import opened Sequences
  import opened CookieText

  // ---------------------------------------------------------------- update or add

  function UpdateOrAdd(jar: seq<CookieInfo>, c: CookieInfo): seq<CookieInfo> {
    if jar == [] then [c]
    else if jar[0].domain == c.domain then [c] + jar[1..]
    else [jar[0]] + UpdateOrAdd(jar[1..], c)
  }

  /** The jar after a sequence of updates to an empty one. */
  function Replay(updates: seq<CookieInfo>): seq<CookieInfo> {
    if updates == [] then [] else UpdateOrAdd(Replay(updates[..|updates| - 1]), updates[|updates| - 1])
  }

  /** The domains of the updates in first-seen order. */
  function FirstSeen(updates: seq<CookieInfo>): seq<string> {
    if updates == [] then []
    else
      var seen, d := FirstSeen(updates[..|updates| - 1]), updates[|updates| - 1].domain;
      if d in seen then seen else seen + [d]
  }

  /** The last update for domain `d`. */
  function LastWritten(updates: seq<CookieInfo>, d: string): Option<CookieInfo> {
    if updates == [] then None
    else if updates[|updates| - 1].domain == d then Some(updates[|updates| - 1])
    else LastWritten(updates[..|updates| - 1], d)
  }

  /** `jar` lists `domains` in order, each with its last-written cookie. */
  predicate IsInsertionOrdered(jar: seq<CookieInfo>, domains: seq<string>, updates: seq<CookieInfo>) {
    && |jar| == |domains|
    && (forall i :: 0 <= i < |jar| ==> jar[i].domain == domains[i] && LastWritten(updates, domains[i]) == Some(jar[i]))
    && (forall i, j :: 0 <= i < j < |jar| ==> jar[i].domain != jar[j].domain)
  }

  /** An update overwrites the one cookie of its domain in place, or appends a new one. */
  lemma {:induction false} UpdateInPlace(jar: seq<CookieInfo>, c: CookieInfo, i: nat)
    requires i <= |jar| && forall j :: 0 <= j < i ==> jar[j].domain != c.domain
    requires i < |jar| ==> jar[i].domain == c.domain
    ensures UpdateOrAdd(jar, c) == if i < |jar| then jar[i := c] else jar + [c]
  {
    if i > 0 {
      UpdateInPlace(jar[1..], c, i - 1);
    }
  }

  /** From an empty jar any sequence of updates keeps domains distinct and yields the domains in
      first-seen order, each with its last-written cookie. */
  lemma {:induction false} JarIsInsertionOrderedMap(updates: seq<CookieInfo>)
    ensures IsInsertionOrdered(Replay(updates), FirstSeen(updates), updates)
  {
    if updates != [] {
      var init, c := updates[..|updates| - 1], updates[|updates| - 1];
      JarIsInsertionOrderedMap(init);
      var jar, seen := Replay(init), FirstSeen(init);
      if i :| 0 <= i < |jar| && jar[i].domain == c.domain {
        assert seen[i] == c.domain;
        UpdateInPlace(jar, c, i);
      } else {
        assert c.domain !in seen;
        UpdateInPlace(jar, c, |jar|);
      }
    }
  }

  // ---------------------------------------------------------------- matching

  predicate OccursAt(part: string, s: string, p: nat) {
    p + |part| <= |s| && s[p..p + |part|] == part
  }

  /** `part` is found in `s`. */
  ghost predicate Occurs(part: string, s: string) {
    exists p :: OccursAt(part, s, p)
  }

  /** `whole` is `part` with something before and something after it. */
  predicate Surrounds(whole: string, before: string, part: string, after: string) {
    whole == before + part + after
  }

  lemma {:induction false} OccursMeans(part: string, s: string)
    ensures Occurs(part, s) <==> exists before, after :: Surrounds(s, before, part, after)
  {
    if p: nat :| OccursAt(part, s, p) {
      assert Surrounds(s, s[..p], part, s[p + |part|..]);
    }
    if before, after :| Surrounds(s, before, part, after) {
      assert s[|before|..|before| + |part|] == part;
      assert OccursAt(part, s, |before|);
    }
  }

  /** Position `i` holds the first of `domains` that occurs in `url`. */
  ghost predicate IsFirstOccurring(domains: seq<string>, url: string, i: nat) {
    i < |domains| && Occurs(domains[i], url) && forall j :: 0 <= j < i ==> !Occurs(domains[j], url)
  }

  function Domains(jar: seq<CookieInfo>): seq<string> {
    seq(|jar|, i requires 0 <= i < |jar| => jar[i].domain)
  }

  /** `found` is the first cookie of the jar whose domain occurs in `url`, if any does. */
  ghost predicate IsFirstMatch(jar: seq<CookieInfo>, url: string, found: Option<CookieInfo>) {
    match found
    case None => forall i :: 0 <= i < |jar| ==> !Occurs(jar[i].domain, url)
    case Some(c) => exists i: nat :: IsFirstOccurring(Domains(jar), url, i) && jar[i] == c
  }

  /** On a jar built by updates, the match is the earliest-added domain occurring in the URL, with
      the cookie last written for it. */
  lemma {:induction false} MatchIsEarliestDomain(updates: seq<CookieInfo>, url: string, found: Option<CookieInfo>)
    requires IsFirstMatch(Replay(updates), url, found)
    ensures found.None? ==> forall d :: d in FirstSeen(updates) ==> !Occurs(d, url)
    ensures found.Some? ==>
      exists i: nat ::
        IsFirstOccurring(FirstSeen(updates), url, i) && LastWritten(updates, FirstSeen(updates)[i]) == found
  {
    JarIsInsertionOrderedMap(updates);
    assert Domains(Replay(updates)) == FirstSeen(updates);
    if found.Some? {
      var i: nat :| IsFirstOccurring(Domains(Replay(updates)), url, i) && Replay(updates)[i] == found.value;
      assert IsFirstOccurring(FirstSeen(updates), url, i) && LastWritten(updates, FirstSeen(updates)[i]) == found;
    }
  }

  // ---------------------------------------------------------------- the object

  class HttpCookie {
    var cookies_: seq<CookieInfo>

    constructor ()
      ensures cookies_ == []
    {
      cookies_ := [];
    }

    method UpdateOrAddCookie(cookie: CookieInfo)
      modifies this
      ensures cookies_ == UpdateOrAdd(old(cookies_), cookie)
      ensures (forall i :: 0 <= i < |old(cookies_)| ==> old(cookies_)[i].domain != cookie.domain) ==>
        cookies_ == old(cookies_) + [cookie]
      ensures forall i | 0 <= i < |old(cookies_)| && old(cookies_)[i].domain == cookie.domain ::
        (forall j :: 0 <= j < i ==> old(cookies_)[j].domain != cookie.domain) ==>
        cookies_ == old(cookies_)[i := cookie]
    {
      for i := 0 to |cookies_|
        invariant cookies_ == old(cookies_)
        invariant forall j :: 0 <= j < i ==> cookies_[j].domain != cookie.domain
      {
        if cookie.domain == cookies_[i].domain {
          UpdateInPlace(cookies_, cookie, i);
          cookies_ := cookies_[i := cookie];
          return;
        }
      }
      UpdateInPlace(cookies_, cookie, |cookies_|);
      cookies_ := cookies_ + [cookie];
    }

    /** `url.find(part) != npos` */
    static method Contains(url: string, part: string) returns (found: bool)
      ensures found <==> Occurs(part, url)
    {
      var p := 0;
      while p + |part| <= |url|
        invariant forall q :: 0 <= q < p ==> !OccursAt(part, url, q)
        decreases |url| - p
      {
        if url[p..p + |part|] == part {
          assert OccursAt(part, url, p);
          return true;
        }
        p := p + 1;
      }
      return false;
    }

    method GetMatchCookie(url: string) returns (found: Option<CookieInfo>)
      ensures IsFirstMatch(cookies_, url, found)
    {
      for i := 0 to |cookies_|
        invariant forall j :: 0 <= j < i ==> !Occurs(cookies_[j].domain, url)
      {
        var here := Contains(url, cookies_[i].domain);
        if here {
          assert IsFirstOccurring(Domains(cookies_), url, i);
          return Some(cookies_[i]);
        }
      }
      return None;
    }

    static method FindChar(s: string, c: char) returns (i: nat)
      ensures i == Find(s, c)
    {
      i := 0;
      while i < |s| && s[i] != c
        invariant i <= |s| && c !in s[..i]
      {
        i := i + 1;
      }
      FindIs(s, c, i);
    }

    /** The `std::getline` loop: the stream is read token by token. */
    static method Split(text: string, d: char) returns (tokens: seq<string>)
      ensures tokens == Tokens(text, d)
    {
      tokens := [];
      var unread := text;
      ghost var whole := Tokens(text, d);
      while unread != ""
        invariant IsCut(whole, tokens, unread, d)
        decreases |unread|
      {
        TakeToken(whole, tokens, unread, d);
        var i := FindChar(unread, d);
        tokens := tokens + [unread[..i]];
        unread := if i == |unread| then "" else unread[i + 1..];
      }
    }

    /** `readFile` on the file's contents. An empty file leaves the jar alone. The result is false
        where the code has no defined behaviour. */
    method ReadFile(text: string) returns (defined: bool)
      modifies this
      ensures text == "" ==> cookies_ == old(cookies_) && defined
      ensures text != "" ==> Reading(cookies_, defined) == ReadText(text)
    {
      defined := true;
      if text == "" {
        return;
      }
      var lines := Split(text, '\n');
      cookies_ := [];
      for i := 0 to |lines|
        invariant defined && ReadLines(lines[..i]) == Reading(cookies_, true)
      {
        var line := lines[i];
        ReadNext(lines, i);
        if line != "" && line[0] != '#' {
          var co := ParseLine(line);
          if co.None? {
            UndefinedFrom(lines, i + 1);
            defined := false;
            return;
          }
          cookies_ := cookies_ + [co.value];
        }
      }
      assert lines[..|lines|] == lines;
    }

    /** The fields of one line, or nothing where the code would index past the end of `elems`. */
    static method ParseLine(line: string) returns (co: Option<CookieInfo>)
      ensures co == ParseRecord(line)
    {
      var elems := Split(line, '\t');
      if |elems| < 7 {
        return None;
      }
      var domain := elems[0];
      if domain != "" && domain[0] == '.' {
        domain := domain[1..];
      }
      co := Some(
        CookieInfo(domain, IsTrue(elems[1]), elems[2], IsTrue(elems[3]), elems[4], elems[5], elems[6]));
    }

    static lemma ReadNext(lines: seq<string>, i: nat)
      requires i < |lines| && ReadLines(lines[..i]).defined
      ensures ReadLines(lines[..i + 1]) ==
        var before, line := ReadLines(lines[..i]).cookies, lines[i];
        if Skipped(line) then Reading(before, true)
        else if ParseRecord(line).None? then Reading(before, false)
        else Reading(before + [ParseRecord(line).value], true)
    {
      assert lines[..i + 1][..i] == lines[..i];
    }

    /** Once a reading is undefined it stays as it is. */
    static lemma UndefinedFrom(lines: seq<string>, i: nat)
      requires i <= |lines| && !ReadLines(lines[..i]).defined
      ensures ReadLines(lines) == ReadLines(lines[..i])
      decreases |lines|
    {
      if i == |lines| {
        assert lines[..i] == lines;
      } else {
        assert lines[..|lines| - 1][..i] == lines[..i];
        UndefinedFrom(lines[..|lines| - 1], i);
      }
    }

    /** One turn of `writeFile`'s loop: the fields appended one by one. */
    static method PrintRecord(item: CookieInfo) returns (line: string)
      ensures line == Record(item)
    {
      ghost var f := Fields(item);
      line := item.domain;
      JoinedAppend(f[..1], '\t', f[1]);
      line := line + "\t" + if item.tailMatch then "TRUE" else "FALSE";
      JoinedAppend(f[..2], '\t', f[2]);
      line := line + "\t" + item.path;
      JoinedAppend(f[..3], '\t', f[3]);
      line := line + "\t" + if item.secure then "TRUE" else "FALSE";
      JoinedAppend(f[..4], '\t', f[4]);
      line := line + "\t" + item.expires;
      JoinedAppend(f[..5], '\t', f[5]);
      line := line + "\t" + item.name;
      JoinedAppend(f[..6], '\t', f[6]);
      line := line + "\t" + item.value;
      assert f[..1] == [f[0]] && f[..1] + [f[1]] == f[..2] && f[..2] + [f[2]] == f[..3] && f[..3] + [f[3]] == f[..4];
      assert f[..4] + [f[4]] == f[..5] && f[..5] + [f[5]] == f[..6] && f[..6] + [f[6]] == f;
    }

    /** `writeFile`: the text it leaves in the file. */
    method WriteFile() returns (text: string)
      ensures text == FileText(cookies_)
    {
      var header := HEADER1 + "\n" + HEADER2 + "\n" + HEADER3 + "\n" + HEADER4;
      text := header;
      for i := 0 to |cookies_|
        invariant text == header + Records(cookies_[..i])
      {
        var line := PrintRecord(cookies_[i]);
        text := text + CString(line);
        assert cookies_[..i + 1][..i] == cookies_[..i];
      }
      assert cookies_[..|cookies_|] == cookies_;
      FileJoined(cookies_);
    }
  }
}
