/** The two access lists: one small key=value file per peer and list, written by `set`, read back
    by `lookup`, and decided on by the accept checks. */
module AclStore {
  import opened Bytes
  import opened Rfc3339
  import opened Trim
  import opened Wrappers

  const NEWLINE: byte := 10
  const RETURN: byte := 13
  const SPACE: byte := 32
  const HASH: byte := 35
  const EQUALS: byte := 61

  // The words of the file format, in ASCII.
  const ALLOW: bytes := [97, 108, 108, 111, 119]
  const HOSTNAME: bytes := [104, 111, 115, 116, 110, 97, 109, 101]
  const DECIDED: bytes := [100, 101, 99, 105, 100, 101, 100]
  const TRUE: bytes := [116, 114, 117, 101]
  const FALSE: bytes := [102, 97, 108, 115, 101]

  /** The longest line bufio.Scanner passes on is one byte shorter than this. */
  const MAX_LINE := 0x1_0000

  datatype Entry = Entry(allow: bool, hostname: bytes, decided: int)

  const BLANK := Entry(false, [], 0)

  /** time.Format and time.Parse for RFC 3339, in seconds from the zero time, which is what a time
      that does not parse reads as. Parse takes more forms than Format writes, so the pair is left
      abstract; that a written time reads back is asked of the years with four digits only. */
  datatype Clock = Clock(format: int -> bytes, parse: bytes -> int) {
    ghost predicate Sound() {
      forall t :: Stamped(t) ==> SoundAt(t)
    }

    predicate SoundAt(t: int) {
      parse(format(t)) == t && OneWord(format(t)) && |format(t)| <= 64
    }
  }

  /** The clock that reads nothing but what it writes. */
  const UTC := Clock(t => if Stamped(t) then Rfc3339.Format(t) else [], Rfc3339.Parse)

  lemma PrintingIsOneWord(s: bytes)
    requires Printing(s)
    ensures OneWord(s)
  {
  }

  lemma UtcIsSound()
    ensures UTC.Sound()
  {
    forall t | Stamped(t)
      ensures UTC.SoundAt(t)
    {
      FormatRoundTrip(t);
      PrintingIsOneWord(Rfc3339.Format(t));
    }
  }

  predicate OneLine(s: bytes) {
    NEWLINE !in s && RETURN !in s
  }

  /** Text that survives as the value of a line. */
  predicate OneWord(s: bytes) {
    OneLine(s) && TrimSpace(s) == s
  }

  // ----- reading one line

  function IndexOf(s: bytes, b: byte): (i: nat)
    ensures i <= |s| && b !in s[..i] && (i < |s| ==> s[i] == b)
  {
    if s == [] || s[0] == b then 0 else 1 + IndexOf(s[1..], b)
  }

  function DropReturn(line: bytes): bytes {
    if line != [] && line[|line| - 1] == RETURN then line[..|line| - 1] else line
  }

  /** Key and value of a line, or None for a blank line, a comment or a line without `=`. */
  function KeyValue(raw: bytes): Option<(bytes, bytes)> {
    var line := TrimSpace(DropReturn(raw));
    if line == [] || line[0] == HASH then None
    else
      var i := IndexOf(line, EQUALS);
      if i == |line| then None else Some((TrimSpace(line[..i]), TrimSpace(line[i + 1..])))
  }

  function Assign(c: Clock, e: Entry, kv: Option<(bytes, bytes)>): Entry {
    match kv
    case None => e
    case Some((k, v)) =>
      if k == ALLOW then e.(allow := v == TRUE)
      else if k == HOSTNAME then e.(hostname := v)
      else if k == DECIDED then e.(decided := c.parse(v))
      else e
  }

  function After(s: bytes, i: nat): bytes {
    if i < |s| then s[i + 1..] else []
  }

  /** What the lines of `s` make of an entry; None when one of them is too long to be read. */
  function ParseFrom(c: Clock, e: Entry, s: bytes): Option<Entry>
    decreases |s|
  {
    if s == [] then Some(e)
    else
      var i := IndexOf(s, NEWLINE);
      if i >= MAX_LINE then None else ParseFrom(c, Assign(c, e, KeyValue(s[..i])), After(s, i))
  }

  // ----- writing

  /** strings.NewReplacer: a line break becomes a space. */
  function Cleaned(s: bytes): (t: bytes)
    ensures |t| == |s| && OneLine(t)
    ensures OneLine(s) ==> t == s
    ensures forall i :: 0 <= i < |s| ==> t[i] == if s[i] in {10, 13} then 32 else s[i]
  {
    if s == [] then [] else [if s[0] == NEWLINE || s[0] == RETURN then SPACE else s[0]] + Cleaned(s[1..])
  }

  function Line(k: bytes, v: bytes): bytes {
    k + [EQUALS] + v
  }

  function Print(c: Clock, allow: bool, hostname: bytes, now: int): bytes {
    Line(ALLOW, if allow then TRUE else FALSE) + [NEWLINE]
    + (Line(HOSTNAME, Cleaned(hostname)) + [NEWLINE]
       + (Line(DECIDED, c.format(now)) + [NEWLINE]))
  }

  /** The file, as its reader sees it. */
  lemma PrintText(c: Clock, allow: bool, hostname: bytes, now: int)
    ensures Print(c, allow, hostname, now) ==
            Ascii(if allow then "allow=true\n" else "allow=false\n")
            + (Ascii("hostname=") + Cleaned(hostname) + Ascii("\n") + (Ascii("decided=") + c.format(now) + Ascii("\n")))
  {
    WordsText();
    assert Line(ALLOW, if allow then TRUE else FALSE) + [NEWLINE]
           == Ascii(if allow then "allow=true\n" else "allow=false\n");
  }

  lemma WordsText()
    ensures HOSTNAME + [EQUALS] == Ascii("hostname=") && DECIDED + [EQUALS] == Ascii("decided=")
    ensures [NEWLINE] == Ascii("\n")
  {
  }

  // ----- what is written is what is read

  /** Lower-case words are never trimmed, never comments and hold no `=`. */
  predicate Word(k: bytes) {
    k != [] && forall i :: 0 <= i < |k| ==> 97 <= k[i] <= 122
  }

  lemma WordStays(k: bytes)
    requires Word(k)
    ensures TrimSpace(k) == k && EQUALS !in k
  {
  }

  lemma WordIsOneLine(k: bytes)
    requires Word(k)
    ensures OneLine(k)
  {
  }

  lemma {:induction false} TrimRightOfLine(k: bytes, v: bytes)
    ensures TrimRight(Line(k, v)) == Line(k, TrimRight(v))
    decreases |v|
  {
    var s := Line(k, v);
    assert s[|k|] == EQUALS && s[|k| + 1..] == v;
    BackOfSuffix(s, |k| + 1);
    BackOfLine(k, v);
    if Back(v) > 0 {
      assert s[..|s| - Back(s)] == Line(k, v[..|v| - Back(v)]);
      TrimRightOfLine(k, v[..|v| - Back(v)]);
    }
  }

  lemma BackOfLine(k: bytes, v: bytes)
    ensures Back(Line(k, v)) == Back(v)
  {
    var s := Line(k, v);
    assert s[|k|] == EQUALS;
    assert forall i :: 0 <= i < |v| ==> s[|k| + 1 + i] == v[i];
  }

  lemma {:induction false} FirstIs(s: bytes, b: byte, n: nat)
    requires n < |s| && s[n] == b && b !in s[..n]
    ensures IndexOf(s, b) == n
  {
    if n > 0 {
      assert s[..n][0] == s[0] && s[1..][..n - 1] == s[..n][1..];
      FirstIs(s[1..], b, n - 1);
    }
  }

  /** A printed line reads back as its key and the trimmed value. */
  lemma KeyValueOfLine(k: bytes, v: bytes)
    requires Word(k) && OneLine(v)
    ensures KeyValue(Line(k, v)) == Some((k, TrimSpace(v)))
  {
    var s := Line(k, v);
    assert s[0] == k[0];
    assert DropReturn(s) == s by {
      if v != [] {
        assert s[|s| - 1] == v[|v| - 1] && v[|v| - 1] in v;
      }
    }
    assert TrimLeft(s) == s;
    TrimRightOfLine(k, v);
    WordStays(k);
    var t := Line(k, TrimRight(v));
    assert t[..|k|] == k && t[|k| + 1..] == TrimRight(v);
    FirstIs(t, EQUALS, |k|);
    TrimIsDone(v);
  }

  lemma NextLine(c: Clock, e: Entry, line: bytes, rest: bytes)
    requires NEWLINE !in line
    ensures ParseFrom(c, e, line + [NEWLINE] + rest)
            == if |line| >= MAX_LINE then None else ParseFrom(c, Assign(c, e, KeyValue(line)), rest)
  {
    var s := line + [NEWLINE] + rest;
    assert s[..|line|] == line && After(s, |line|) == rest;
    FirstIs(s, NEWLINE, |line|);
  }

  /** Short enough for its line to be read back. */
  predicate Readable(hostname: bytes) {
    |HOSTNAME| + 1 + |hostname| < MAX_LINE
  }

  lemma KeysAreWords()
    ensures Word(ALLOW) && Word(HOSTNAME) && Word(DECIDED) && Word(TRUE) && Word(FALSE)
    ensures ALLOW != HOSTNAME && ALLOW != DECIDED && HOSTNAME != DECIDED && TRUE != FALSE
  {
    assert |ALLOW| == 5 && |HOSTNAME| == 8 && |DECIDED| == 7 && |TRUE| == 4 && |FALSE| == 5;
  }

  lemma NextKey(c: Clock, e: Entry, k: bytes, v: bytes, rest: bytes)
    requires Word(k) && OneLine(v)
    ensures ParseFrom(c, e, Line(k, v) + [NEWLINE] + rest)
            == if |k| + 1 + |v| >= MAX_LINE then None else ParseFrom(c, Assign(c, e, Some((k, TrimSpace(v)))), rest)
  {
    KeyValueOfLine(k, v);
    NextLine(c, e, Line(k, v), rest);
  }

  /** What `set` writes, `lookup` reads: the decision, the hostname in one line and trimmed, the
      time. Only a hostname that makes its line too long for the reader loses the entry, and then
      it is lost whole. */
  lemma ParseOfPrint(c: Clock, allow: bool, hostname: bytes, now: int)
    requires c.Sound() && Stamped(now)
    ensures ParseFrom(c, BLANK, Print(c, allow, hostname, now))
            == if Readable(hostname) then Some(Entry(allow, TrimSpace(Cleaned(hostname)), now)) else None
  {
    var (v, name, stamp) := (if allow then TRUE else FALSE, Cleaned(hostname), c.format(now));
    assert c.SoundAt(now);
    KeysAreWords();
    WordStays(v);
    WordIsOneLine(v);
    var rest2 := Line(DECIDED, stamp) + [NEWLINE];
    var rest1 := Line(HOSTNAME, name) + [NEWLINE] + rest2;
    NextKey(c, BLANK, ALLOW, v, rest1);
    NextKey(c, Entry(allow, [], 0), HOSTNAME, name, rest2);
    assert rest2 == rest2 + [];
    NextKey(c, Entry(allow, TrimSpace(name), 0), DECIDED, stamp, []);
  }

  // ----- files from another hand

  /** Blank lines, comments and lines without `=` say nothing. */
  lemma SaysNothing(w: bytes, rest: bytes)
    requires White(w)
    ensures KeyValue(w) == None
    ensures KeyValue(w + ([HASH] + rest)) == None
    ensures EQUALS !in rest ==> KeyValue(rest) == None
  {
    AfterReturn(w);
    CommentLine(w, rest);
    if EQUALS !in rest {
      AfterReturn(rest);
      var a, b := TrimParts(rest);
      var line := TrimSpace(rest);
      assert EQUALS !in line by {
        assert forall x :: x in line ==> x in a + (line + b);
      }
      assert IndexOf(line, EQUALS) == |line|;
    }
  }

  /** The carriage return a line may end in is white space. */
  lemma AfterReturn(s: bytes)
    ensures TrimSpace(DropReturn(s)) == TrimSpace(s)
    ensures White(s) ==> TrimSpace(s) == []
  {
    var t := DropReturn(s);
    if t != s {
      RightOf(s, t);
      TrimEitherWay(s);
      TrimEitherWay(t);
    }
    if White(s) {
      assert s + [] == s;
      TrimLeftOf(s, []);
    }
  }

  lemma NotAllWhite(x: bytes)
    requires x != [] && Front(x) == 0
    ensures TrimRight(x) != [] && TrimRight(x)[0] == x[0]
  {
    var tail := RightIsWhite(x);
  }

  lemma CommentLine(w: bytes, rest: bytes)
    requires White(w)
    ensures KeyValue(w + ([HASH] + rest)) == None
  {
    var x := [HASH] + rest;
    AfterReturn(w + x);
    TrimLeftOf(w, x);
    NotAllWhite(x);
  }

  /** A key, `=` and a value, with white space around each of them. */
  lemma KeyValueOfSpaced(a: bytes, k: bytes, b: bytes, c: bytes, v: bytes, d: bytes)
    requires White(a) && White(b) && White(c) && White(d)
    requires k != [] && Visible(k) && Visible(v) && v != [] && EQUALS !in k && EQUALS !in b && k[0] != HASH
    ensures KeyValue(a + (k + b + [EQUALS] + (c + v) + d)) == Some((k, v))
  {
    var line := k + b + [EQUALS] + (c + v);
    EndsOfLine(k, b, c, v);
    AfterReturn(a + (line + d));
    TrimmedLine(a, line, d, k[0], v[|v| - 1]);
    FirstEquals(k + b, c + v);
    SpacedWord([], k, b);
    SpacedWord(c, v, []);
    TakenApart(a + (line + d), line, k + b, c + v);
  }

  lemma TakenApart(raw: bytes, line: bytes, left: bytes, right: bytes)
    requires TrimSpace(DropReturn(raw)) == line && line != [] && line[0] != HASH
    requires IndexOf(line, EQUALS) == |left| < |line| && line[..|left|] == left && line[|left| + 1..] == right
    ensures KeyValue(raw) == Some((TrimSpace(left), TrimSpace(right)))
  {
  }

  lemma EndsOfLine(k: bytes, b: bytes, c: bytes, v: bytes)
    requires k != [] && v != []
    ensures var line := k + b + [EQUALS] + (c + v);
            line[0] == k[0] && line[|line| - 1] == v[|v| - 1] && EQUALS in line
  {
    var line := k + b + [EQUALS] + (c + v);
    assert line[|k + b|] == EQUALS;
  }

  lemma TrimmedLine(a: bytes, line: bytes, d: bytes, first: byte, last: byte)
    requires White(a) && White(d) && line != [] && line[0] == first && line[|line| - 1] == last
    requires 32 < first < 128 && 32 < last < 128
    ensures TrimSpace(a + (line + d)) == line
  {
    assert (line + d)[0] == first;
    TrimLeftOf(a, line + d);
    TrimRightOf(line, d);
  }

  lemma FirstEquals(left: bytes, right: bytes)
    requires EQUALS !in left
    ensures var line := left + [EQUALS] + right;
            IndexOf(line, EQUALS) == |left| && line[..|left|] == left && line[|left| + 1..] == right
  {
    var line := left + [EQUALS] + right;
    assert line[..|left|] == left;
    FirstIs(line, EQUALS, |left|);
  }

  lemma SpacedWord(a: bytes, word: bytes, b: bytes)
    requires White(a) && White(b) && word != [] && Visible(word)
    ensures a == [] ==> TrimSpace(word + b) == word
    ensures b == [] ==> TrimSpace(a + word) == word
  {
    TrimOfParts(a, word, b);
    assert a == [] ==> a + (word + b) == word + b;
    assert b == [] ==> a + (word + b) == a + word;
  }

  function FileOf(lines: seq<bytes>): bytes {
    if lines == [] then [] else lines[0] + [NEWLINE] + FileOf(lines[1..])
  }

  /** Lines, and short enough to be read. */
  predicate ShortLines(lines: seq<bytes>) {
    forall i :: 0 <= i < |lines| ==> NEWLINE !in lines[i] && |lines[i]| < 65536
  }

  /** The line gives the decision, as `v`. */
  predicate Decides(line: bytes, v: bytes) {
    KeyValue(line) == Some((Ascii("allow"), v))
  }

  predicate Undecided(line: bytes) {
    KeyValue(line).None? || KeyValue(line).value.0 != Ascii("allow")
  }

  lemma OneLineDecides(c: Clock, e: Entry, line: bytes, v: bytes)
    ensures Decides(line, v) ==> (Assign(c, e, KeyValue(line)).allow <==> v == Ascii("true"))
    ensures Undecided(line) ==> Assign(c, e, KeyValue(line)).allow == e.allow
  {
    assert ALLOW == Ascii("allow") && TRUE == Ascii("true");
    KeysAreWords();
  }

  lemma FirstLine(c: Clock, e: Entry, lines: seq<bytes>)
    requires lines != [] && ShortLines(lines)
    ensures ShortLines(lines[1..])
    ensures ParseFrom(c, e, FileOf(lines)) == ParseFrom(c, Assign(c, e, KeyValue(lines[0])), FileOf(lines[1..]))
  {
    NextLine(c, e, lines[0], FileOf(lines[1..]));
  }

  /** In a file of any lines at all the last one with the key `allow` decides, and allows only when
      it says `true`; a file without one denies. */
  lemma {:induction false} LastAllowDecides(c: Clock, e: Entry, lines: seq<bytes>, i: nat, v: bytes)
    requires ShortLines(lines) && i <= |lines| && (i < |lines| ==> Decides(lines[i], v))
    requires forall j :: 0 <= j < |lines| && (j > i || i == |lines|) ==> Undecided(lines[j])
    ensures var p := ParseFrom(c, e, FileOf(lines));
            p.Some? && p.value.allow == if i < |lines| then v == Ascii("true") else e.allow
    decreases |lines|
  {
    if lines != [] {
      var rest := lines[1..];
      FirstLine(c, e, lines);
      OneLineDecides(c, e, lines[0], v);
      LastAllowDecides(c, Assign(c, e, KeyValue(lines[0])), rest, if i == 0 then |rest| else i - 1, v);
    }
  }

  // ----- the files

  /** Two independent lists. */
  datatype Kind = FileAcl | TaskAcl

  datatype Place =
    | PeerFile(kind: Kind, name: bytes)    // <dir>/<name>
    | DefaultFile(kind: Kind)

  type Files = map<Place, bytes>

  const TMP: bytes := [46, 116, 109, 112]    // ".tmp"

  /** stableIDPattern: 1 to 64 letters, digits and dashes. */
  predicate ValidId(id: bytes) {
    1 <= |id| <= 64 &&
    forall i :: 0 <= i < |id| ==> 48 <= id[i] <= 57 || 65 <= id[i] <= 90 || 97 <= id[i] <= 122 || id[i] == 45
  }

  lemma ValidIdsAre(id: bytes)
    ensures ValidId(id) <==> 1 <= |id| <= 64 && forall i :: 0 <= i < |id| ==> IdChar(id[i] as char)
  {
    forall i | 0 <= i < |id|
      ensures IdChar(id[i] as char) <==> 48 <= id[i] <= 57 || 65 <= id[i] <= 90 || 97 <= id[i] <= 122 || id[i] == 45
    {
    }
  }

  predicate IdChar(c: char) {
    '0' <= c <= '9' || 'A' <= c <= 'Z' || 'a' <= c <= 'z' || c == '-'
  }

  datatype AclError = InvalidId | Unreadable | NotWritten

  /** What `lookup` finds on a disk that works. */
  function Lookup(c: Clock, files: Files, kind: Kind, id: bytes): Result<Option<Entry>, AclError> {
    if !ValidId(id) then Err(InvalidId)
    else if PeerFile(kind, id) !in files then Ok(None)
    else
      match ParseFrom(c, BLANK, files[PeerFile(kind, id)])
      case None => Err(Unreadable)
      case Some(e) => Ok(Some(e))
  }

  /** There is an entry that can be read. */
  predicate Listed(c: Clock, files: Files, kind: Kind, id: bytes) {
    Lookup(c, files, kind, id).Ok? && Lookup(c, files, kind, id).value.Some?
  }

  /** What an edit of this peer reads as afterwards. */
  function ReadBack(e: Edit): Result<Option<Entry>, AclError> {
    if Readable(e.hostname) then Ok(Some(Entry(e.allow, TrimSpace(Cleaned(e.hostname)), e.now))) else Err(Unreadable)
  }

  /** defaultAllows: nothing but an explicit allow. */
  predicate DefaultAllows(files: Files, kind: Kind) {
    DefaultFile(kind) in files && TrimSpace(files[DefaultFile(kind)]) == ALLOW
  }

  /** The word `allow`, and nothing but white space around it. */
  ghost predicate SaysAllow(content: bytes) {
    exists a, b :: Around(content, a, Ascii("allow"), b)
  }

  lemma DefaultIs(files: Files, kind: Kind)
    ensures DefaultAllows(files, kind) <==> DefaultFile(kind) in files && SaysAllow(files[DefaultFile(kind)])
  {
    assert ALLOW == Ascii("allow");
    if DefaultFile(kind) in files {
      TrimsTo(files[DefaultFile(kind)], ALLOW);
    }
  }

  /** Whether the peer is let in: an unreadable entry is not "no entry". */
  predicate Trusts(c: Clock, files: Files, kind: Kind, id: bytes) {
    match Lookup(c, files, kind, id)
    case Err(_) => false
    case Ok(None) => DefaultAllows(files, kind)
    case Ok(Some(e)) => e.allow
  }

  /** After a `set` that went through: the entry is replaced as a whole, and the temporary file
      has become it. */
  function Written(c: Clock, files: Files, kind: Kind, id: bytes, hostname: bytes, allow: bool, now: int): Files {
    files[PeerFile(kind, id) := Print(c, allow, hostname, now)] - {PeerFile(kind, id + TMP)}
  }

  lemma OnlyThere(files: Files, p: Place, content: bytes)
    ensures files[p := content] - {p} == files - {p}
  {
  }

  class AclFiles {
    const clock: Clock
    const reliable: bool    // whether the disk never fails
    var files: Files

    constructor (clock: Clock, reliable: bool, files: Files)
      ensures this.clock == clock && this.reliable == reliable && this.files == files
    {
      this.clock, this.reliable, this.files := clock, reliable, files;
    }

    /** lookup, with its scanning loop. */
    method LookUp(kind: Kind, id: bytes) returns (r: Result<Option<Entry>, AclError>)
      ensures r == Lookup(clock, files, kind, id) || (!reliable && ValidId(id) && r == Err(Unreadable))
    {
      if !ValidId(id) {
        return Err(InvalidId);
      }
      var canOpen := Works(reliable);
      if !canOpen {
        return Err(Unreadable);
      }
      if PeerFile(kind, id) !in files {
        return Ok(None);
      }
      var entry, rest := BLANK, files[PeerFile(kind, id)];
      while rest != []
        invariant ParseFrom(clock, entry, rest) == ParseFrom(clock, BLANK, files[PeerFile(kind, id)])
        decreases |rest|
      {
        var i := IndexOf(rest, NEWLINE);
        var read := Works(reliable);
        if i >= MAX_LINE || !read {
          return Err(Unreadable);
        }
        entry, rest := Assign(clock, entry, KeyValue(rest[..i])), After(rest, i);
      }
      return Ok(Some(entry));
    }

    /** set: write beside, then rename over. Each call is one edit, whatever fails on the way; a
        failure leaves every entry as it was. */
    method Set(kind: Kind, id: bytes, hostname: bytes, allow: bool, now: int) returns (err: Option<AclError>)
      modifies this
      ensures err.None? ==> ValidId(id) && files == Written(clock, old(files), kind, id, hostname, allow, now)
      ensures err.Some? ==> files - {PeerFile(kind, id + TMP)} == old(files) - {PeerFile(kind, id + TMP)}
      ensures exists left :: files == Apply(clock, old(files), Edit(kind, id, hostname, allow, now, err.None?, left))
      ensures reliable ==> (err.None? <==> ValidId(id))
      ensures !ValidId(id) ==> err == Some(InvalidId) && files == old(files)
    {
      if !ValidId(id) {
        assert files == Apply(clock, old(files), Edit(kind, id, hostname, allow, now, false, None));
        return Some(InvalidId);
      }
      var tmp := PeerFile(kind, id + TMP);
      var made := Works(reliable);    // MkdirAll, and opening the file
      if !made {
        assert files == Apply(clock, old(files), Edit(kind, id, hostname, allow, now, false, None));
        return Some(NotWritten);
      }
      var body := Print(clock, allow, hostname, now);
      var written := Works(reliable);
      if !written {
        var partial: nat :| partial <= |body|;
        files := files[tmp := body[..partial]];
        OnlyThere(old(files), tmp, body[..partial]);
        assert files == Apply(clock, old(files), Edit(kind, id, hostname, allow, now, false, Some(body[..partial])));
        return Some(NotWritten);
      }
      files := files[tmp := body];
      var renamed := Works(reliable);
      if !renamed {
        OnlyThere(old(files), tmp, body);
        assert files == Apply(clock, old(files), Edit(kind, id, hostname, allow, now, false, Some(body)));
        return Some(NotWritten);
      }
      TmpIsNoEntry(id, id);
      files := files[PeerFile(kind, id) := files[tmp]] - {tmp};
      assert files == Written(clock, old(files), kind, id, hostname, allow, now);
      err := None;
      assert files == Apply(clock, old(files), Edit(kind, id, hostname, allow, now, err.None?, None));
    }

    /** checkTaskAccept: what gets through is trusted, and on a working disk everyone trusted
        gets through. */
    method CheckTaskAccept(id: bytes) returns (ok: bool)
      // without an entry it is the default that decides, and without a default nobody gets in
      ensures PeerFile(TaskAcl, id) !in files && ok ==>
                DefaultFile(TaskAcl) in files && SaysAllow(files[DefaultFile(TaskAcl)])
      ensures PeerFile(TaskAcl, id) !in files && reliable && ValidId(id) ==>
                (ok <==> DefaultFile(TaskAcl) in files && SaysAllow(files[DefaultFile(TaskAcl)]))
      ensures ok ==> Trusts(clock, files, TaskAcl, id)
      ensures reliable ==> (ok <==> Trusts(clock, files, TaskAcl, id))
    {
      DefaultIs(files, TaskAcl);
      ok := Allowed(TaskAcl, id);
    }

    /** checkAccept: trusted, within the size limit, and the disk has room. */
    method CheckAccept(id: bytes, size: int, limit: int, fits: int -> bool) returns (ok: bool)
      ensures PeerFile(FileAcl, id) !in files && ok ==>
                DefaultFile(FileAcl) in files && SaysAllow(files[DefaultFile(FileAcl)])
      ensures PeerFile(FileAcl, id) !in files && reliable && ValidId(id) && size <= limit && fits(size) ==>
                (ok <==> DefaultFile(FileAcl) in files && SaysAllow(files[DefaultFile(FileAcl)]))
      ensures ok ==> Trusts(clock, files, FileAcl, id) && size <= limit && fits(size)
      ensures reliable ==> (ok <==> Trusts(clock, files, FileAcl, id) && size <= limit && fits(size))
    {
      DefaultIs(files, FileAcl);
      ok := Allowed(FileAcl, id);
      ok := ok && size <= limit && fits(size);
    }

    method Allowed(kind: Kind, id: bytes) returns (allowed: bool)
      ensures allowed ==> Trusts(clock, files, kind, id)
      ensures reliable ==> (allowed <==> Trusts(clock, files, kind, id))
    {
      var read := Works(reliable);    // LoadToken
      allowed := read && DefaultAllows(files, kind);
      var r := LookUp(kind, id);
      if r.Err? {
        allowed := false;
      } else if r.value.Some? {
        allowed := r.value.value.allow;
      }
    }

    /** list: exactly the entries that can be looked up; nothing when the directory cannot be read. */
    method List(kind: Kind) returns (out: map<bytes, Entry>)
      ensures reliable ==> forall id :: id in out <==> Listed(clock, files, kind, id)
      ensures forall id :: id in out ==> Lookup(clock, files, kind, id) == Ok(Some(out[id]))
    {
      out := map[];
      var listed := Works(reliable);    // ReadDir
      if !listed {
        return;
      }
      var names := set p | p in files && p.PeerFile? && p.kind == kind :: p.name;
      var left := names;
      while left != {}
        invariant left <= names
        invariant forall id :: id in out ==> Lookup(clock, files, kind, id) == Ok(Some(out[id]))
        invariant reliable ==>
                    forall id :: id in names - left && Listed(clock, files, kind, id) ==> id in out
        decreases |left|
      {
        var name :| name in left;
        left := left - {name};
        if |name| < 4 || name[|name| - 4..] != TMP {
          var r := LookUp(kind, name);
          if r.Ok? && r.value.Some? {
            out := out[name := r.value.value];
          }
        } else {
          NameOfTmp(name);
        }
      }
      assert forall id :: Listed(clock, files, kind, id) ==> PeerFile(kind, id) in files;
    }
  }

  /** The dot keeps temporary files apart from every entry. */
  lemma TmpIsNoEntry(id: bytes, other: bytes)
    requires ValidId(other)
    ensures other != id + TMP && !ValidId(id + TMP)
  {
    assert (id + TMP)[|id|] == 46;
  }

  lemma NameOfTmp(name: bytes)
    requires |name| >= 4 && name[|name| - 4..] == TMP
    ensures !ValidId(name)
  {
    assert name == name[..|name| - 4] + TMP;
    assert name[|name| - 4] == TMP[0];
  }

  // ----- histories

  /** One call of `set`; a failed one may leave anything in the temporary file. */
  datatype Edit = Edit(kind: Kind, id: bytes, hostname: bytes, allow: bool, now: int, ok: bool, left: Option<bytes>)

  predicate AllStamped(edits: seq<Edit>) {
    forall i :: 0 <= i < |edits| ==> Stamped(edits[i].now)
  }

  function Apply(c: Clock, files: Files, e: Edit): Files {
    if !ValidId(e.id) then files
    else if e.ok then Written(c, files, e.kind, e.id, e.hostname, e.allow, e.now)
    else if e.left.Some? then files[PeerFile(e.kind, e.id + TMP) := e.left.value]
    else files
  }

  function ApplyAll(c: Clock, files: Files, edits: seq<Edit>): Files {
    var n := |edits| - 1;
    if edits == [] then files else Apply(c, ApplyAll(c, files, edits[..n]), edits[n])
  }

  /** The last edit of this peer in this list that went through. */
  function LastEdit(edits: seq<Edit>, kind: Kind, id: bytes): Option<Edit> {
    var n := |edits| - 1;
    if edits == [] || !ValidId(id) then None
    else if edits[n].ok && edits[n].kind == kind && edits[n].id == id then Some(edits[n])
    else LastEdit(edits[..n], kind, id)
  }

  lemma ApplyElsewhere(c: Clock, files: Files, e: Edit, kind: Kind, id: bytes)
    requires ValidId(id) && !(e.ok && e.kind == kind && e.id == id)
    ensures Lookup(c, Apply(c, files, e), kind, id) == Lookup(c, files, kind, id)
  {
    TmpIsNoEntry(e.id, id);
  }

  lemma ApplyHere(c: Clock, files: Files, e: Edit)
    requires c.Sound() && Stamped(e.now) && ValidId(e.id) && e.ok
    ensures Lookup(c, Apply(c, files, e), e.kind, e.id)
            == ReadBack(e)
  {
    TmpIsNoEntry(e.id, e.id);
    ParseOfPrint(c, e.allow, e.hostname, e.now);
  }

  /** After any history of edits to both lists, failed ones included, an entry reads as the last
      edit that went through wrote it, and an untouched one as before. */
  lemma {:induction false} LookupIsLastEdit(c: Clock, files: Files, edits: seq<Edit>, kind: Kind, id: bytes)
    requires c.Sound() && AllStamped(edits) && ValidId(id)
    ensures Lookup(c, ApplyAll(c, files, edits), kind, id) ==
            match LastEdit(edits, kind, id)
            case None => Lookup(c, files, kind, id)
            case Some(e) => ReadBack(e)
  {
    var n := |edits| - 1;
    if edits != [] {
      if edits[n].ok && edits[n].kind == kind && edits[n].id == id {
        ApplyHere(c, ApplyAll(c, files, edits[..n]), edits[n]);
      } else {
        LookupIsLastEdit(c, files, edits[..n], kind, id);
        ApplyElsewhere(c, ApplyAll(c, files, edits[..n]), edits[n], kind, id);
      }
    }
  }

  lemma {:induction false} DefaultStays(c: Clock, files: Files, edits: seq<Edit>, kind: Kind)
    ensures DefaultAllows(ApplyAll(c, files, edits), kind) == DefaultAllows(files, kind)
  {
    if edits != [] {
      DefaultStays(c, files, edits[..|edits| - 1], kind);
      ApplyKeepsDefault(c, ApplyAll(c, files, edits[..|edits| - 1]), edits[|edits| - 1], kind);
    }
  }

  lemma ApplyKeepsDefault(c: Clock, files: Files, e: Edit, kind: Kind)
    ensures DefaultFile(kind) in Apply(c, files, e) <==> DefaultFile(kind) in files
    ensures DefaultFile(kind) in files ==> Apply(c, files, e)[DefaultFile(kind)] == files[DefaultFile(kind)]
  {
  }

  /** So the decision about a peer is the last one made in that list, and never the other list's;
      without one it is the decision there was. An allow whose hostname is too long to be read
      back denies. */
  lemma DecisionIsLastEdit(c: Clock, files: Files, edits: seq<Edit>, kind: Kind, id: bytes)
    requires c.Sound() && AllStamped(edits)
    ensures Trusts(c, ApplyAll(c, files, edits), kind, id) ==
            match LastEdit(edits, kind, id)
            case None => Trusts(c, files, kind, id)
            case Some(e) => e.allow && Readable(e.hostname)
  {
    if ValidId(id) {
      LookupIsLastEdit(c, files, edits, kind, id);
      DefaultStays(c, files, edits, kind);
    }
  }

  /** On a node whose list has no default and knows nothing of the peer, it is let in exactly when
      the last edit of it says so and can be read: nobody is, until somebody has been. */
  lemma NobodyUntilAllowed(c: Clock, files: Files, edits: seq<Edit>, kind: Kind, id: bytes)
    requires c.Sound() && AllStamped(edits)
    requires DefaultFile(kind) !in files && PeerFile(kind, id) !in files
    ensures Trusts(c, ApplyAll(c, files, edits), kind, id) <==>
              var last := LastEdit(edits, kind, id);
              last.Some? && last.value.allow && Readable(last.value.hostname)
  {
    DecisionIsLastEdit(c, files, edits, kind, id);
  }

  lemma FirstEditDecides(c: Clock, e: Edit)
    requires c.Sound() && Stamped(e.now) && ValidId(e.id) && e.ok
    ensures Trusts(c, ApplyAll(c, map[], [e]), e.kind, e.id) == (e.allow && Readable(e.hostname))
  {
    DecisionIsLastEdit(c, map[], [e], e.kind, e.id);
  }

  lemma HostnamesDecide(c: Clock, denied: Edit, allowed: Edit)
    requires c.Sound() && Stamped(denied.now) && ValidId(denied.id) && denied.ok && denied.allow
    requires allowed == denied.(hostname := allowed.hostname)
    requires |denied.hostname| == 65527 && |allowed.hostname| == 65526
    ensures !Trusts(c, ApplyAll(c, map[], [denied]), denied.kind, denied.id)
    ensures Trusts(c, ApplyAll(c, map[], [allowed]), denied.kind, denied.id)
  {
    FirstEditDecides(c, denied);
    FirstEditDecides(c, allowed);
  }

  /** The shortest hostname that does it, and the longest that does not: 65527 and 65526 letters,
      at a clock there is. */
  lemma LongHostnameDenies(kind: Kind, now: int) returns (denied: Edit, allowed: Edit)
    requires Stamped(now)
    ensures denied.kind == allowed.kind == kind && denied.id == allowed.id
    ensures denied.allow && allowed.allow && denied.ok && allowed.ok && denied.now == allowed.now == now
    ensures |denied.hostname| == 65527 && |allowed.hostname| == 65526
    ensures !Trusts(UTC, ApplyAll(UTC, map[], [denied]), kind, denied.id)
    ensures Trusts(UTC, ApplyAll(UTC, map[], [allowed]), kind, allowed.id)
  {
    var id: bytes := [110];
    assert ValidId(id);
    denied := Edit(kind, id, seq(65527, i => 97), true, now, true, None);
    allowed := Edit(kind, id, seq(65526, i => 97), true, now, true, None);
    UtcIsSound();
    HostnamesDecide(UTC, denied, allowed);
  }
}
