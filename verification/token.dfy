/**
 * Reading the push-notification access token from its text file: every
 * line has its trailing blanks (space, newline, carriage return, tab)
 * erased, the lines are concatenated, and the result is trimmed once more.
 *
 * The file is given as the sequence of lines getline yields, or None when
 * the file cannot be opened.
 */
module TokenFile {

  /** A file that may not exist. */
  datatype Option<T> = None | Some(value: T)

  /** One of the characters " \n\r\t" that the reader trims. */
  predicate IsTrimChar(c: char) {
    c == ' ' || c == '\n' || c == '\r' || c == '\t'
  }

  /** Every character of s is one the reader trims. */
  predicate AllTrimChars(s: string) {
    forall i :: 0 <= i < |s| ==> IsTrimChar(s[i])
  }

  /** s is empty or its last character is not one the reader trims. */
  predicate EndsClean(s: string) {
    s == [] || !IsTrimChar(s[|s| - 1])
  }

  /**
   * std::string::find_last_not_of(" \n\r\t"): the index of the last
   * character that is not trimmed, or -1 for npos. Adding one to npos wraps
   * to 0 in size_t, exactly as -1 + 1 is 0.
   */
  function FindLastNotOf(s: string): (p: int)
    ensures -1 <= p < |s|
    ensures p >= 0 ==> !IsTrimChar(s[p])
    ensures forall i :: p < i < |s| ==> IsTrimChar(s[i])
  {
    if s == [] then -1
    else if !IsTrimChar(s[|s| - 1]) then |s| - 1
    else FindLastNotOf(s[..|s| - 1])
  }

  /** s.erase(s.find_last_not_of(" \n\r\t") + 1): drop the trailing blanks. */
  function RightTrim(s: string): (r: string)
    ensures r <= s
    ensures EndsClean(r)
    ensures AllTrimChars(s[|r|..])
  {
    s[..FindLastNotOf(s) + 1]
  }

  /** The three properties of RightTrim determine its result. */
  lemma RightTrimUnique(s: string, t: string)
    requires t <= s && EndsClean(t) && AllTrimChars(s[|t|..])
    ensures t == RightTrim(s)
  {
  }

  /** Trimming a second time changes nothing. */
  lemma RightTrimIdempotent(s: string)
    ensures RightTrim(RightTrim(s)) == RightTrim(s)
  {
    var r := RightTrim(s);
    RightTrimUnique(r, r);
  }

  /** A line made only of blanks trims to nothing. */
  lemma RightTrimBlank(s: string)
    requires AllTrimChars(s)
    ensures RightTrim(s) == ""
  {
    RightTrimUnique(s, "");
  }

  /**
   * The token accumulated by the getline loop: each line trimmed, then
   * concatenated. Since every piece ends clean, so does the whole.
   */
  function JoinTrimmed(lines: seq<string>): (r: string)
    ensures EndsClean(r)
  {
    if lines == [] then ""
    else JoinTrimmed(lines[..|lines| - 1]) + RightTrim(lines[|lines| - 1])
  }

  /** readTokenFromFile: an unopenable file gives "", and the token never ends in a blank. */
  function TokenOf(file: Option<seq<string>>): (token: string)
    ensures file.None? ==> token == ""
    ensures EndsClean(token)
  {
    match file
    case None => RightTrim("")
    case Some(lines) => RightTrim(JoinTrimmed(lines))
  }

  /** So the final erase in readTokenFromFile never removes anything. */
  lemma FinalTrimIsRedundant(lines: seq<string>)
    ensures TokenOf(Some(lines)) == JoinTrimmed(lines)
  {
    var j := JoinTrimmed(lines);
    RightTrimUnique(j, j);
  }

  /** The loop over two runs of lines is the concatenation of the two tokens. */
  lemma {:induction false} JoinTrimmedAppend(a: seq<string>, b: seq<string>)
    ensures JoinTrimmed(a + b) == JoinTrimmed(a) + JoinTrimmed(b)
    decreases |b|
  {
    if b == [] {
      assert a + b == a;
    } else {
      var b' := b[..|b| - 1];
      assert (a + b)[..|a + b| - 1] == a + b';
      assert (a + b)[|a + b| - 1] == b[|b| - 1];
      assert JoinTrimmed(b) == JoinTrimmed(b') + RightTrim(b[|b| - 1]);
      JoinTrimmedAppend(a, b');
    }
  }

  /** A line of blanks contributes nothing to the token. */
  lemma BlankLineContributesNothing(before: seq<string>, line: string, after: seq<string>)
    requires AllTrimChars(line)
    ensures JoinTrimmed(before + [line] + after) == JoinTrimmed(before + after)
  {
    JoinTrimmedAppend(before + [line], after);
    JoinTrimmedAppend(before, after);
    assert (before + [line])[..|before|] == before;
    RightTrimBlank(line);
  }

  /** The getline loop of readTokenFromFile, followed by the final trim. */
  method ReadTokenFromFile(file: Option<seq<string>>) returns (token: string)
    ensures token == TokenOf(file)
  {
    token := "";
    if file.Some? {
      var lines := file.value;
      var i := 0;
      while i < |lines|
        invariant 0 <= i <= |lines|
        invariant token == JoinTrimmed(lines[..i])
      {
        var line := lines[i];
        line := line[..FindLastNotOf(line) + 1];
        token := token + line;
        assert lines[..i + 1][..i] == lines[..i];
        i := i + 1;
      }
      assert lines[..i] == lines;
    }
    token := token[..FindLastNotOf(token) + 1];
  }
}
