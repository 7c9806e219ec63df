/**
 * The control line the proxy writes to the cache daemon's local socket,
 * `<segment name> <request path> <segment size>\n`, and the way the daemon's
 * boss thread takes it apart with strtok and atol.
 */
module ControlLine {
  import opened Wrappers
  import opened CTypes
  import opened Numerals
  import ShmLayout

  /** `char request[1024]` in the proxy handler. */
  const MaxRequestLen: nat := 1024
  /** MAX_CACHE_REQUEST_LEN, the size of the boss's receive buffer. */
  const MaxCacheRequestLen: nat := 6100
  /** The sizes of the `shm_name` and `key` fields of a cache task. */
  const TaskNameLen: nat := 64
  const TaskKeyLen: nat := 1024

  /** cache_task_t: which segment to attach, which file to serve, and the segment size to use. */
  datatype Task = Task(shmName: string, key: string, segmentSize: SizeT)

  /** The line `snprintf(request, 1024, "%s %s %zu\n", name, path, segsize)` produces. */
  function FormatRequest(name: string, path: string, segsize: SizeT): (line: string)
    ensures |line| < MaxRequestLen && '\0' !in line
    ensures var full := CString(name) + " " + CString(path) + " " + Decimal(segsize) + "\n";
            |line| == Min(|full|, MaxRequestLen - 1) && line == full[..|line|]
  {
    Truncate(CString(name) + " " + CString(path) + " " + Decimal(segsize) + "\n", MaxRequestLen)
  }

  // ---------------------------------------------------------------- strtok

  /** The delimiters strtok skips before a token. */
  function SkipDelims(s: string, delims: set<char>): (r: string)
    ensures |r| <= |s| && r == s[|s| - |r|..]
    ensures forall i :: 0 <= i < |s| - |r| ==> s[i] in delims
    ensures r != [] ==> r[0] !in delims
  {
    if s != [] && s[0] in delims then SkipDelims(s[1..], delims) else s
  }

  /** The length of the token at the front of s. */
  function TokenLen(s: string, delims: set<char>): (n: nat)
    ensures n <= |s|
    ensures forall i :: 0 <= i < n ==> s[i] !in delims
    ensures n < |s| ==> s[n] in delims
  {
    if s == [] || s[0] in delims then 0 else 1 + TokenLen(s[1..], delims)
  }

  datatype Split = Split(token: string, rest: string)

  /**
   * One strtok call on the text left by the previous one: the token found,
   * and the text after the delimiter that ended it (which strtok overwrote
   * with a NUL). None is the NULL result; every later call is NULL too.
   */
  function Strtok(s: string, delims: set<char>): (r: Option<Split>)
    ensures r.None? <==> forall i :: 0 <= i < |s| ==> s[i] in delims
    ensures r.Some? ==> r.value.token != []
    ensures r.Some? ==> forall i :: 0 <= i < |r.value.token| ==> r.value.token[i] !in delims
  {
    var t := SkipDelims(s, delims);
    if t == [] then None
    else
      var n := TokenLen(t, delims);
      Some(Split(t[..n], if n < |t| then t[n + 1..] else []))
  }

  lemma {:induction false} TokenLenOfWord(w: string, tail: string, delims: set<char>)
    requires forall i :: 0 <= i < |w| ==> w[i] !in delims
    requires tail == [] || tail[0] in delims
    ensures TokenLen(w + tail, delims) == |w|
  {
    if w != [] {
      assert (w + tail)[1..] == w[1..] + tail;
      TokenLenOfWord(w[1..], tail, delims);
    }
  }

  /** strtok on a word followed by a delimiter returns the word and the text after the delimiter. */
  lemma StrtokWord(w: string, d: char, rest: string, delims: set<char>)
    requires w != [] && forall i :: 0 <= i < |w| ==> w[i] !in delims
    requires d in delims
    ensures Strtok(w + [d] + rest, delims) == Some(Split(w, rest))
  {
    var s := w + [d] + rest;
    assert s == w + ([d] + rest);
    TokenLenOfWord(w, [d] + rest, delims);
    assert s[..|w|] == w && s[|w| + 1..] == rest;
  }

  /** strtok on a word that runs to the end of the text returns it and leaves nothing. */
  lemma StrtokLastWord(w: string, delims: set<char>)
    requires w != [] && forall i :: 0 <= i < |w| ==> w[i] !in delims
    ensures Strtok(w, delims) == Some(Split(w, []))
  {
    TokenLenOfWord(w, [], delims);
    assert w + [] == w;
  }

  // ---------------------------------------------------------------- atol

  /** isspace in the C locale. */
  predicate IsSpace(c: char)
  {
    c == ' ' || c == '\t' || c == '\n' || c == '\U{000B}' || c == '\U{000C}' || c == '\r'
  }

  /** The white space atol skips before the number. */
  function SkipSpace(s: string): (r: string)
    ensures |r| <= |s| && r == s[|s| - |r|..]
    ensures forall i :: 0 <= i < |s| - |r| ==> IsSpace(s[i])
    ensures r != [] ==> !IsSpace(r[0])
  {
    if s != [] && IsSpace(s[0]) then SkipSpace(s[1..]) else s
  }

  function LeadingDigits(s: string): (r: string)
    ensures AllDigits(r) && |r| <= |s| && r == s[..|r|]
    ensures |r| < |s| ==> !IsDigit(s[|r|])
  {
    if s != [] && IsDigit(s[0]) then [s[0]] + LeadingDigits(s[1..]) else []
  }

  /** strtol saturates at the bounds of long. */
  function Saturate(v: int): (r: int)
    ensures LongMin <= r <= LongMax
    ensures LongMin <= v <= LongMax ==> r == v
    ensures v > LongMax ==> r == LongMax
    ensures v < LongMin ==> r == LongMin
  {
    if v > LongMax then LongMax else if v < LongMin then LongMin else v
  }

  /**
   * atol as glibc computes it (through strtol): leading white space, an
   * optional sign, then the longest run of decimal digits; no digits give 0.
   */
  function Atol(s: string): (v: int)
    ensures LongMin <= v <= LongMax
  {
    var t := SkipSpace(s);
    if t != [] && t[0] == '-' then Saturate(0 - DigitsValue(LeadingDigits(t[1..])) as int)
    else if t != [] && t[0] == '+' then Saturate(DigitsValue(LeadingDigits(t[1..])))
    else Saturate(DigitsValue(LeadingDigits(t)))
  }

  lemma AtolOfDecimal(n: nat)
    requires n <= LongMax
    ensures Atol(Decimal(n)) == n
  {
    DigitsValueOfDecimal(n);
    AtolOfDigits(Decimal(n));
  }

  /** atol of a plain digit string is the number the digits denote, when it fits a long. */
  lemma AtolOfDigits(d: string)
    requires d != [] && AllDigits(d) && DigitsValue(d) <= LongMax
    ensures Atol(d) == DigitsValue(d)
  {
    assert !IsSpace(d[0]) && d[0] != '-' && d[0] != '+';
    assert SkipSpace(d) == d;
    LeadingDigitsOfDigits(d);
  }

  lemma {:induction false} LeadingDigitsOfDigits(s: string)
    requires AllDigits(s)
    ensures LeadingDigits(s) == s
  {
    if s != [] {
      LeadingDigitsOfDigits(s[1..]);
    }
  }

  // ---------------------------------------------------------------- the boss's parse

  /** The three strtok results of the boss: name and key split on " ", size on " \n". */
  datatype RequestTokens = RequestTokens(name: Option<string>, key: Option<string>, size: Option<string>)

  function Tokenize(buf: string): (t: RequestTokens)
    ensures t.name.None? ==> t.key.None?
    ensures t.key.None? ==> t.size.None?
  {
    var text := CString(buf);
    match Strtok(text, {' '})
    case None => RequestTokens(None, None, None)
    case Some(a) =>
      match Strtok(a.rest, {' '})
      case None => RequestTokens(Some(a.token), None, None)
      case Some(b) =>
        match Strtok(b.rest, {' ', '\n'})
        case None => RequestTokens(Some(a.token), Some(b.token), None)
        case Some(c) => RequestTokens(Some(a.token), Some(b.token), Some(c.token))
  }

  /** The key with everything from its first newline on removed. */
  function CutAtNewline(s: string): (r: string)
    ensures |r| <= |s| && r == s[..|r|] && '\n' !in r
    ensures |r| < |s| ==> s[|r|] == '\n'
  {
    if s == [] || s[0] == '\n' then [] else [s[0]] + CutAtNewline(s[1..])
  }

  /** The segment size: the fallback when there is no third token, else atol of it cast to size_t. */
  function SegmentSizeOf(size: Option<string>): (r: SizeT)
    ensures size.None? ==> r == ShmLayout.ShmSegmentSize
  {
    match size
    case None => ShmLayout.ShmSegmentSize
    case Some(tok) => LongToSize(Atol(tok))
  }

  /** The cache task the boss enqueues for a line with a name and a key. */
  function TaskOf(name: string, key: string, size: Option<string>): (t: Task)
    ensures |t.shmName| <= TaskNameLen && |t.key| <= TaskKeyLen
    ensures '\n' !in t.key
  {
    Task(Field(name, TaskNameLen), Field(CutAtNewline(key), TaskKeyLen), SegmentSizeOf(size))
  }

  /**
   * The boss's reading of a received line: a task, or None when the line has
   * no name or no key, which the boss drops without a reply.
   */
  function ParseRequest(buf: string): (r: Option<Task>)
    ensures r.None? <==> Tokenize(buf).key.None?
  {
    var t := Tokenize(buf);
    if t.name.None? || t.key.None? then None
    else Some(TaskOf(t.name.value, t.key.value, t.size))
  }

  /** An empty line has no tokens, so the boss enqueues nothing for it. */
  lemma EmptyLineHasNoTask()
    ensures ParseRequest([]) == None
  {
    assert CString([]) == [];
    assert Strtok([], {' '}) == None;
  }

  /**
   * A line without a size token falls back to the default segment size, and
   * the newline that ends it is trimmed off the key.
   */
  lemma TwoWordLineFallsBack()
    ensures ParseRequest("seg key\n") == Some(Task("seg", "key", ShmLayout.ShmSegmentSize))
  {
    assert "seg key\n" == "seg" + [' '] + "key" + ['\n'];
    ParseOfLineWithoutSize("seg", "key");
  }

  /**
   * A line holding only a name and a key parses to a task for them with the
   * default segment size, the key losing its newline.
   */
  lemma ParseOfLineWithoutSize(name: string, key: string)
    requires IsWord(name) && |name| < TaskNameLen
    requires IsWord(key) && '\n' !in key && |key| < TaskKeyLen
    ensures ParseRequest(name + [' '] + key + ['\n']) == Some(Task(name, key, ShmLayout.ShmSegmentSize))
  {
    var line := key + ['\n'];
    assert name + [' '] + key + ['\n'] == name + [' '] + line;
    TokenizeOfTwoWords(name, line);
    assert line == key + ['\n'] + [];
    CutAtNewlineOfLine(key, []);
    assert Field(name, TaskNameLen) == name && Field(key, TaskKeyLen) == key;
    assert TaskOf(name, line, None) == Task(name, key, ShmLayout.ShmSegmentSize);
  }

  /** The key is cut at the newline that ends its first line. */
  lemma {:induction false} CutAtNewlineOfLine(w: string, rest: string)
    requires '\n' !in w
    ensures CutAtNewline(w + ['\n'] + rest) == w
  {
    if w != [] {
      assert (w + ['\n'] + rest)[1..] == w[1..] + ['\n'] + rest;
      CutAtNewlineOfLine(w[1..], rest);
    }
  }

  /** A name and a key, without a size token, split into two tokens. */
  lemma TokenizeOfTwoWords(name: string, key: string)
    requires IsWord(name) && IsWord(key)
    ensures Tokenize(name + [' '] + key) == RequestTokens(Some(name), Some(key), None)
  {
    var s := name + [' '] + key;
    assert '\0' !in s;
    CStringOfNulFree(s);
    WordHasNoSpace(name);
    WordHasNoSpace(key);
    StrtokAt(s, name, ' ', key, {' '});
    StrtokLastWord(key, {' '});
    assert Strtok([], {' ', '\n'}) == None;
  }

  /** What the boss loop does with a line, as its code runs statement by statement. */
  datatype BossAction = Enqueue(task: Task) | KeyNullDeref

  /** Line 266 trims the key before line 267 tests it for NULL. */
  function BossActionAsWritten(buf: string): (a: BossAction)
    ensures a.KeyNullDeref? <==> ParseRequest(buf).None?
    ensures a.Enqueue? ==> '\n' !in a.task.key && |a.task.shmName| <= TaskNameLen
  {
    var t := Tokenize(buf);
    if t.key.None? then KeyNullDeref
    else Enqueue(TaskOf(t.name.value, t.key.value, t.size))
  }

  /** The as-written loop and the corrected parse agree on every line that has a key. */
  lemma AsWrittenAgreesWhenKeyPresent(buf: string)
    ensures BossActionAsWritten(buf).Enqueue? <==> ParseRequest(buf).Some?
    ensures ParseRequest(buf).Some? ==> BossActionAsWritten(buf) == Enqueue(ParseRequest(buf).value)
  {
  }

  /** A line with a name but no key makes the as-written boss dereference NULL. */
  lemma NameOnlyLineDereferencesNull()
    ensures BossActionAsWritten("seg\n") == KeyNullDeref
    ensures ParseRequest("seg\n") == None
  {
    var s := "seg\n";
    assert '\0' !in s;
    CStringOfNulFree(s);
    StrtokLastWord(s, {' '});
    assert Strtok([], {' '}) == None;
  }

  // ---------------------------------------------------------------- round trip

  /** A C string without spaces, as strtok on " " returns it whole. */
  predicate IsWord(s: string)
  {
    s != [] && ' ' !in s && '\0' !in s
  }

  /**
   * Formatting a request and parsing it with the boss's rules gives back the
   * segment name, the path as key and the segment size, when neither name nor
   * path holds white space, the size fits a long, and the line fits the buffer.
   */
  lemma RequestRoundTrip(name: string, path: string, segsize: SizeT)
    requires IsWord(name) && |name| < TaskNameLen
    requires IsWord(path) && '\n' !in path
    requires segsize <= LongMax
    requires |name| + |path| + |Decimal(segsize)| + 3 < MaxRequestLen
    ensures ParseRequest(FormatRequest(name, path, segsize)) == Some(Task(name, path, segsize))
  {
    var d := Decimal(segsize);
    CStringOfNulFree(name);
    CStringOfNulFree(path);
    assert FormatRequest(name, path, segsize) == name + " " + path + " " + d + "\n";
    DigitsValueOfDecimal(segsize);
    AtolOfDigits(d);
    ParseOfWellFormedLine(name, path, d);
  }

  /** The boss's parse of `name path digits\n` built from words. */
  lemma ParseOfWellFormedLine(name: string, path: string, d: string)
    requires IsWord(name) && |name| < TaskNameLen
    requires IsWord(path) && '\n' !in path && |path| < TaskKeyLen
    requires d != [] && AllDigits(d)
    ensures ParseRequest(name + " " + path + " " + d + "\n")
            == Some(Task(name, path, LongToSize(Atol(d))))
  {
    TokenizeOfWellFormedLine(name, path, d);
    CutAtNewlineOfPlain(path);
  }

  /**
   * Whatever word stands in the size position, the boss takes (size_t)atol
   * of it: the fallback size is used only when there is no third token.
   */
  lemma ParseOfSizedLine(name: string, path: string, w: string)
    requires IsWord(name) && |name| < TaskNameLen
    requires IsWord(path) && '\n' !in path && |path| < TaskKeyLen
    requires IsWord(w) && '\n' !in w
    ensures ParseRequest(name + " " + path + " " + w + "\n") == Some(Task(name, path, LongToSize(Atol(w))))
  {
    TokenizeOfSizedLine(name, path, w);
    CutAtNewlineOfPlain(path);
  }

  /** The three tokens of `name path word\n` are the name, the path and the word. */
  lemma TokenizeOfSizedLine(name: string, path: string, w: string)
    requires IsWord(name) && IsWord(path) && '\n' !in path
    requires IsWord(w) && '\n' !in w
    ensures Tokenize(name + " " + path + " " + w + "\n") == RequestTokens(Some(name), Some(path), Some(w))
  {
    var tail := w + "\n";
    var rest := path + " " + tail;
    var line := name + " " + path + " " + w + "\n";
    assert line == name + [' '] + rest;
    assert rest == path + [' '] + tail;
    assert tail == w + ['\n'] + [];
    assert '\0' !in line by {
      assert line == name + [' '] + path + [' '] + w + ['\n'];
    }
    TokenizeOfParts(line, name, rest, path, tail, w);
  }

  /** A size token that starts with neither white space, a sign nor a digit reads as 0. */
  lemma NonNumericSizeIsZero(w: string)
    requires w != [] && !IsSpace(w[0]) && !IsDigit(w[0]) && w[0] != '-' && w[0] != '+'
    ensures Atol(w) == 0 && SegmentSizeOf(Some(w)) == 0
  {
    assert SkipSpace(w) == w;
    assert LeadingDigits(w) == [];
  }

  /** A line whose size token is not a number asks for a segment of 0 bytes. */
  lemma ParseOfNonNumericSize(name: string, path: string, w: string)
    requires IsWord(name) && |name| < TaskNameLen
    requires IsWord(path) && '\n' !in path && |path| < TaskKeyLen
    requires IsWord(w) && '\n' !in w
    requires !IsSpace(w[0]) && !IsDigit(w[0]) && w[0] != '-' && w[0] != '+'
    ensures ParseRequest(name + " " + path + " " + w + "\n") == Some(Task(name, path, 0))
  {
    ParseOfSizedLine(name, path, w);
    NonNumericSizeIsZero(w);
  }

  /**
   * A malformed size does not fall back to the default segment size: the
   * line "seg key abc" asks for a segment of 0 bytes.
   */
  lemma MalformedSizeGivesZero()
    ensures ParseRequest("seg key abc\n") == Some(Task("seg", "key", 0))
  {
    assert "seg key abc\n" == "seg" + [' '] + "key" + [' '] + "abc" + ['\n'];
    ParseOfNonNumericSize("seg", "key", "abc");
  }

  /** The three tokens of `name path digits\n` are the name, the path and the digits. */
  lemma TokenizeOfWellFormedLine(name: string, path: string, d: string)
    requires IsWord(name) && IsWord(path) && '\n' !in path
    requires d != [] && AllDigits(d)
    ensures Tokenize(name + " " + path + " " + d + "\n") == RequestTokens(Some(name), Some(path), Some(d))
  {
    var tail := d + "\n";
    var rest := path + " " + tail;
    var line := name + " " + path + " " + d + "\n";
    assert line == name + [' '] + rest;
    assert rest == path + [' '] + tail;
    assert tail == d + ['\n'] + [];
    assert '\0' !in line by {
      assert forall i :: 0 <= i < |d| ==> d[i] != '\0';
      assert line == name + [' '] + path + [' '] + d + ['\n'];
    }
    DigitsHaveNoDelims(d);
    TokenizeOfParts(line, name, rest, path, tail, d);
  }

  lemma TokenizeOfParts(line: string, name: string, rest: string, path: string, tail: string, d: string)
    requires IsWord(name) && IsWord(path) && d != [] && NoDelims(d, {' ', '\n'}) && '\0' !in line
    requires line == name + [' '] + rest
    requires rest == path + [' '] + tail
    requires tail == d + ['\n'] + []
    ensures Tokenize(line) == RequestTokens(Some(name), Some(path), Some(d))
  {
    WordHasNoSpace(name);
    StrtokAt(line, name, ' ', rest, {' '});
    WordHasNoSpace(path);
    StrtokAt(rest, path, ' ', tail, {' '});
    StrtokAt(tail, d, '\n', [], {' ', '\n'});
    TokenizeOfTokens(line, Split(name, rest), Split(path, tail), Split(d, []));
  }

  /** No character of `w` is one of `delims`. */
  predicate NoDelims(w: string, delims: set<char>)
  {
    forall i :: 0 <= i < |w| ==> w[i] !in delims
  }

  lemma WordHasNoSpace(w: string)
    requires IsWord(w)
    ensures NoDelims(w, {' '})
  {
  }

  lemma DigitsHaveNoDelims(d: string)
    requires AllDigits(d)
    ensures NoDelims(d, {' ', '\n'})
  {
  }

  lemma StrtokAt(s: string, w: string, d: char, rest: string, delims: set<char>)
    requires s == w + [d] + rest
    requires w != [] && NoDelims(w, delims)
    requires d in delims
    ensures Strtok(s, delims) == Some(Split(w, rest))
  {
    StrtokWord(w, d, rest, delims);
  }

  lemma TokenizeOfTokens(buf: string, a: Split, b: Split, c: Split)
    requires '\0' !in buf
    requires Strtok(buf, {' '}) == Some(a)
    requires Strtok(a.rest, {' '}) == Some(b)
    requires Strtok(b.rest, {' ', '\n'}) == Some(c)
    ensures Tokenize(buf) == RequestTokens(Some(a.token), Some(b.token), Some(c.token))
  {
    CStringOfNulFree(buf);
  }

  lemma {:induction false} CutAtNewlineOfPlain(s: string)
    requires '\n' !in s
    ensures CutAtNewline(s) == s
  {
    if s != [] {
      CutAtNewlineOfPlain(s[1..]);
    }
  }

  /**
   * Whatever the path, a task parsed from the proxy's line names the proxy's
   * segment: the name comes first and snprintf never cuts it.
   */
  lemma ParsedNameIsSegmentName(name: string, path: string, segsize: SizeT)
    requires IsWord(name) && |name| < TaskNameLen
    ensures ParseRequest(FormatRequest(name, path, segsize)).Some? ==>
              ParseRequest(FormatRequest(name, path, segsize)).value.shmName == name
  {
    CStringOfNulFree(name);
    var x := CString(path) + " " + Decimal(segsize) + "\n";
    var line := FormatRequest(name, path, segsize);
    assert CString(name) + " " + CString(path) + " " + Decimal(segsize) + "\n" == name + [' '] + x;
    FirstWordOfPrefix(line, name, x);
  }

  /** A NUL-free prefix, longer than the word, of `word x` starts with the word as its first token. */
  lemma FirstWordOfPrefix(line: string, name: string, x: string)
    requires IsWord(name) && |name| < TaskNameLen
    requires '\0' !in line
    requires |line| <= |name + [' '] + x| && line == (name + [' '] + x)[..|line|]
    requires |line| == |name + [' '] + x| || |line| == MaxRequestLen - 1
    ensures ParseRequest(line).Some? ==> ParseRequest(line).value.shmName == name
  {
    var full := name + [' '] + x;
    assert |line| >= |name| + 1;
    var rest := line[|name| + 1..];
    assert line == name + [' '] + rest by {
      assert line[..|name| + 1] == full[..|name| + 1] == name + [' '];
    }
    StrtokWord(name, ' ', rest, {' '});
    ShmNameOfFirstToken(line, Split(name, rest));
  }

  lemma ShmNameOfFirstToken(buf: string, a: Split)
    requires '\0' !in buf
    requires Strtok(buf, {' '}) == Some(a) && |a.token| < TaskNameLen
    ensures ParseRequest(buf).Some? ==> ParseRequest(buf).value.shmName == a.token
  {
    CStringOfNulFree(buf);
    assert Tokenize(buf).name == Some(a.token);
  }
}
