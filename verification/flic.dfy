/**
 * The Flic button workflow: the button's events arrive as pushes on a
 * push-notification service, which the application polls. Every poll's
 * body is appended to one response string (curl's write callback), and
 * after each poll the accumulated string is classified by a priority rule
 * into a single click, a double click or a hold, each of which names a
 * recorded audio file to send as a tap-to-talk request.
 *
 * The HTTP requests and the 30-second clock are not modelled: the bodies
 * of the polls that fit in the time budget are given as a sequence.
 */
module FlicButton {

  datatype FlicGesture = NoGesture | SingleClick | DoubleClick | Hold

  const FlicClickAudioFile: string := "./inputs/Flic_single.wav"
  const FlicDoubleAudioFile: string := "./inputs/Flic_double.wav"
  const FlicHoldAudioFile: string := "./inputs/Flic_hold.wav"

  /** pattern occurs in s at index i. */
  predicate OccursAt(s: string, pattern: string, i: int) {
    0 <= i && i + |pattern| <= |s| && s[i..i + |pattern|] == pattern
  }

  /** pattern occurs somewhere in s. */
  ghost predicate Occurs(s: string, pattern: string) {
    exists i :: OccursAt(s, pattern, i)
  }

  /** s.find(pattern) != std::string::npos. */
  predicate Contains(s: string, pattern: string)
    ensures Contains(s, pattern) ==> |pattern| <= |s|
    decreases |s|
  {
    pattern <= s || (s != [] && Contains(s[1..], pattern))
  }

  /** Contains agrees with the definition by an occurrence index, both ways. */
  lemma {:induction false} ContainsIffOccurs(s: string, pattern: string)
    ensures Contains(s, pattern) <==> Occurs(s, pattern)
    decreases |s|
  {
    if pattern <= s {
      assert OccursAt(s, pattern, 0);
    } else if s == [] {
      assert forall i :: !OccursAt(s, pattern, i);
    } else {
      ContainsIffOccurs(s[1..], pattern);
      assert !OccursAt(s, pattern, 0);
      forall i | OccursAt(s, pattern, i) ensures OccursAt(s[1..], pattern, i - 1) {
        assert s[1..][i - 1..i - 1 + |pattern|] == s[i..i + |pattern|];
      }
      forall i | OccursAt(s[1..], pattern, i) ensures OccursAt(s, pattern, i + 1) {
        assert s[i + 1..i + 1 + |pattern|] == s[1..][i..i + |pattern|];
      }
    }
  }

  /** Appending text never removes an occurrence. */
  lemma {:induction false} ContainsAppend(a: string, b: string, pattern: string)
    requires Contains(a, pattern)
    ensures Contains(a + b, pattern)
    decreases |a|
  {
    if pattern <= a {
      assert (a + b)[..|pattern|] == a[..|pattern|];
    } else {
      ContainsAppend(a[1..], b, pattern);
      assert (a + b)[1..] == a[1..] + b;
    }
  }

  /** A pattern whose first character s lacks does not occur in s. */
  lemma {:induction false} FirstCharAbsent(s: string, pattern: string)
    requires pattern != [] && forall k :: 0 <= k < |s| ==> s[k] != pattern[0]
    ensures !Contains(s, pattern)
    decreases |s|
  {
    if s != [] {
      assert !(pattern <= s) by {
        assert s[0] != pattern[0];
      }
      assert forall k :: 0 <= k < |s[1..]| ==> s[1..][k] == s[k + 1];
      FirstCharAbsent(s[1..], pattern);
    }
  }

  /**
   * The classifier in the polling loop: " click" (with its leading space)
   * wins over "double_click", which wins over "hold".
   */
  function ClassifyFlic(response: string): (g: FlicGesture)
    ensures g == SingleClick <==> Occurs(response, " click")
    ensures g == DoubleClick <==> !Occurs(response, " click") && Occurs(response, "double_click")
    ensures g == Hold <==>
      !Occurs(response, " click") && !Occurs(response, "double_click") && Occurs(response, "hold")
    ensures g == NoGesture <==>
      !Occurs(response, " click") && !Occurs(response, "double_click") && !Occurs(response, "hold")
  {
    ContainsIffOccurs(response, " click");
    ContainsIffOccurs(response, "double_click");
    ContainsIffOccurs(response, "hold");
    if Contains(response, " click") then SingleClick
    else if Contains(response, "double_click") then DoubleClick
    else if Contains(response, "hold") then Hold
    else NoGesture
  }

  /** The audio file sent for a gesture; "" when there is none. */
  function AudioFileFor(g: FlicGesture): (file: string)
    ensures |file| > 0 <==> g != NoGesture
  {
    match g
    case NoGesture => ""
    case SingleClick => FlicClickAudioFile
    case DoubleClick => FlicDoubleAudioFile
    case Hold => FlicHoldAudioFile
  }

  /**
   * A response that names a gesture keeps naming one however much is
   * appended, and a single click stays a single click.
   */
  lemma GestureStaysFound(a: string, b: string)
    requires ClassifyFlic(a) != NoGesture
    ensures ClassifyFlic(a + b) != NoGesture
    ensures ClassifyFlic(a) == SingleClick ==> ClassifyFlic(a + b) == SingleClick
  {
    if Contains(a, " click") {
      ContainsAppend(a, b, " click");
    } else if Contains(a, "double_click") {
      ContainsAppend(a, b, "double_click");
    } else {
      ContainsAppend(a, b, "hold");
    }
  }

  /**
   * The leading space keeps a double click from reading as a single click:
   * a response without spaces that mentions "double_click" is a double click.
   */
  lemma DoubleClickIsNotSingleClick(response: string)
    requires forall k :: 0 <= k < |response| ==> response[k] != ' '
    requires Contains(response, "double_click")
    ensures ClassifyFlic(response) == DoubleClick
  {
    FirstCharAbsent(response, " click");
  }

  /**
   * writeFunction: curl's write callback appends size * nmemb bytes from
   * ptr to the response string and reports that count as handled.
   */
  function WriteFunction(data: string, ptr: seq<char>, size: nat, nmemb: nat): (r: (string, nat))
    requires size * nmemb <= |ptr|
    ensures r.1 == size * nmemb
    ensures data <= r.0 && r.0[|data|..] == ptr[..r.1]
  {
    (data + ptr[..size * nmemb], size * nmemb)
  }

  /**
   * The response string after all the given polls: everything they
   * returned, in order, so no poll's body is longer than it.
   */
  function Concat(bodies: seq<string>): (s: string)
    ensures forall i :: 0 <= i < |bodies| ==> |bodies[i]| <= |s|
  {
    if bodies == [] then "" else Concat(bodies[..|bodies| - 1]) + bodies[|bodies| - 1]
  }

  /** The response string only grows: every earlier state of it is a prefix of a later one. */
  lemma {:induction false} ConcatPrefix(bodies: seq<string>, k: nat)
    requires k <= |bodies|
    ensures Concat(bodies[..k]) <= Concat(bodies)
    decreases |bodies|
  {
    if k == |bodies| {
      assert bodies[..k] == bodies;
    } else {
      var init := bodies[..|bodies| - 1];
      assert bodies[..k] == init[..k];
      ConcatPrefix(init, k);
    }
  }

  /**
   * How many polls the loop makes: up to and including the first whose
   * accumulated response names a gesture, or all of them.
   */
  function PollsNeeded(bodies: seq<string>): (n: nat)
    ensures n <= |bodies|
    ensures forall j :: 0 <= j < n ==> ClassifyFlic(Concat(bodies[..j])) == NoGesture
    ensures ClassifyFlic(Concat(bodies[..n])) == NoGesture ==> n == |bodies|
  {
    assert !Contains("", " click") && !Contains("", "double_click") && !Contains("", "hold");
    PollsFrom(bodies, 0)
  }

  /** PollsNeeded, having already seen the first k polls name no gesture. */
  function PollsFrom(bodies: seq<string>, k: nat): (n: nat)
    requires k <= |bodies|
    requires forall j :: 0 <= j <= k ==> ClassifyFlic(Concat(bodies[..j])) == NoGesture
    ensures k <= n <= |bodies|
    ensures forall j :: 0 <= j < n ==> ClassifyFlic(Concat(bodies[..j])) == NoGesture
    ensures ClassifyFlic(Concat(bodies[..n])) == NoGesture ==> n == |bodies|
    decreases |bodies| - k
  {
    if k == |bodies| then k
    else if ClassifyFlic(Concat(bodies[..k + 1])) != NoGesture then k + 1
    else PollsFrom(bodies, k + 1)
  }

  /**
   * The gesture the polling loop ends with: none exactly when the
   * concatenation of all the polls names none.
   */
  function PolledGesture(bodies: seq<string>): (g: FlicGesture)
    ensures g == NoGesture <==> ClassifyFlic(Concat(bodies)) == NoGesture
  {
    var n := PollsNeeded(bodies);
    assert n == |bodies| ==> bodies[..n] == bodies;
    if ClassifyFlic(Concat(bodies)) == NoGesture then
      NoGestureMeansNoneInAnyPrefix(bodies, n);
      ClassifyFlic(Concat(bodies[..n]))
    else
      ClassifyFlic(Concat(bodies[..n]))
  }

  /**
   * The polling loop: each poll's body is written into the one response
   * string (a poll whose request could not be set up adds nothing), which
   * is classified after every poll; the loop stops at the first gesture or
   * when the polls run out.
   */
  method WaitForFlicGesture(bodies: seq<string>) returns (gesture: FlicGesture, responseString: string, polled: nat)
    ensures polled == PollsNeeded(bodies)
    ensures responseString == Concat(bodies[..polled])
    ensures gesture == ClassifyFlic(responseString) == PolledGesture(bodies)
  {
    responseString, gesture, polled := "", NoGesture, 0;
    while polled < |bodies| && gesture == NoGesture
      invariant polled <= |bodies| && responseString == Concat(bodies[..polled])
      invariant gesture == ClassifyFlic(responseString)
      invariant forall j :: 0 <= j < polled ==> ClassifyFlic(Concat(bodies[..j])) == NoGesture
    {
      var body := bodies[polled];
      var written := WriteFunction(responseString, body, 1, |body|);
      assert written.0 == responseString + body;
      assert bodies[..polled + 1][..polled] == bodies[..polled];
      assert Concat(bodies[..polled + 1]) == Concat(bodies[..polled]) + body;
      responseString := written.0;
      gesture := ClassifyFlic(responseString);
      polled := polled + 1;
    }
    PollsNeededUnique(bodies, polled);
  }

  /** The properties PollsNeeded promises single out one count. */
  lemma PollsNeededUnique(bodies: seq<string>, n: nat)
    requires n <= |bodies|
    requires forall j :: 0 <= j < n ==> ClassifyFlic(Concat(bodies[..j])) == NoGesture
    requires ClassifyFlic(Concat(bodies[..n])) == NoGesture ==> n == |bodies|
    ensures n == PollsNeeded(bodies)
  {
    var m := PollsNeeded(bodies);
    var atN, atM := Concat(bodies[..n]), Concat(bodies[..m]);
    assert n < m ==> ClassifyFlic(atN) == NoGesture;
    assert m < n ==> ClassifyFlic(atM) == NoGesture;
  }

  /** If the whole response names no gesture, neither does any earlier accumulated response. */
  lemma {:induction false} NoGestureMeansNoneInAnyPrefix(bodies: seq<string>, k: nat)
    requires ClassifyFlic(Concat(bodies)) == NoGesture && k <= |bodies|
    ensures ClassifyFlic(Concat(bodies[..k])) == NoGesture
    decreases |bodies| - k
  {
    if k < |bodies| {
      var b := bodies[..k + 1];
      assert b[..k] == bodies[..k];
      NoGestureMeansNoneInAnyPrefix(bodies, k + 1);
      if ClassifyFlic(Concat(bodies[..k])) != NoGesture {
        GestureStaysFound(Concat(bodies[..k]), bodies[k]);
      }
    } else {
      assert bodies[..k] == bodies;
    }
  }
}
