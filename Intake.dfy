/**
 * The intake agent: whitespace clean-up of subject and body
 * (`re.sub(r'\s+', ' ', text).strip()`) and reply-thread detection by
 * case-insensitive reply markers.
 */
module Intake {
  import opened Text
  import opened Optional

  /**
   * Python's whitespace (`\s`, `str.strip`) on ASCII: tab, line feed,
   * vertical tab, form feed, carriage return, the four separators
   * U+001C..U+001F, and the space.
   */
  predicate IsSpace(c: char) {
    c == ' ' || ('\t' <= c <= '\r') || ('\U{1C}' <= c <= '\U{1F}')
  }

  // ---------------------------------------------------------------------------
  // clean_text
  // ---------------------------------------------------------------------------

  /**
   * `re.sub(r'\s+', ' ', s)` over the rest of a string; `afterSpace` says the
   * character before `s` was whitespace already replaced by the space.
   */
  function CollapseFrom(s: String, afterSpace: bool): String {
    if s == [] then []
    else if IsSpace(s[0]) then (if afterSpace then [] else [' ']) + CollapseFrom(s[1..], true)
    else [s[0]] + CollapseFrom(s[1..], false)
  }

  /** `re.sub(r'\s+', ' ', s)`: every run of whitespace becomes one space. */
  function Collapse(s: String): String {
    CollapseFrom(s, false)
  }

  /** `s.lstrip()`: what is left after the leading whitespace. */
  function StripLeft(s: String): (r: String)
    ensures |r| <= |s| && r == s[|s| - |r|..]
    ensures r == [] || !IsSpace(r[0])
  {
    if s != [] && IsSpace(s[0]) then StripLeft(s[1..]) else s
  }

  /** `s.rstrip()`: what is left before the trailing whitespace. */
  function StripRight(s: String): (r: String)
    ensures |r| <= |s| && r == s[..|r|]
    ensures r == [] || !IsSpace(r[|r| - 1])
  {
    if s != [] && IsSpace(s[|s| - 1]) then StripRight(s[..|s| - 1]) else s
  }

  function Strip(s: String): String {
    StripRight(StripLeft(s))
  }

  /** Every whitespace character is a space followed by a non-whitespace character, if any. */
  ghost predicate SingleSpaced(s: String) {
    forall i :: 0 <= i < |s| && IsSpace(s[i]) ==> s[i] == ' ' && (i + 1 < |s| ==> !IsSpace(s[i + 1]))
  }

  /**
   * The shape `clean_text` promises: no whitespace at either end, and inside
   * only single spaces, never two side by side.
   */
  ghost predicate IsClean(s: String) {
    forall i :: 0 <= i < |s| && IsSpace(s[i]) ==> s[i] == ' ' && 0 < i < |s| - 1 && !IsSpace(s[i + 1])
  }

  /** `clean_text(text)`: empty stays empty, otherwise collapse and strip. */
  function CleanText(text: String): (r: String)
    ensures text == [] ==> r == []
    ensures IsClean(r)
    ensures |r| <= |text|
  {
    if text == [] then []
    else
      CollapseShape(text, false);
      StripShape(Collapse(text));
      Strip(Collapse(text))
  }

  // ---------------------------------------------------------------------------
  // Properties of clean_text
  // ---------------------------------------------------------------------------

  /** Collapsing never lengthens and leaves only single spaces. */
  lemma {:induction false} CollapseShape(s: String, afterSpace: bool)
    ensures var r := CollapseFrom(s, afterSpace);
      && |r| <= |s|
      && SingleSpaced(r)
      && (afterSpace && r != [] ==> !IsSpace(r[0]))
  {
    if s != [] {
      CollapseShape(s[1..], IsSpace(s[0]));
    }
  }

  lemma SingleSpacedSlice(s: String, i: nat, j: nat)
    requires SingleSpaced(s) && i <= j <= |s|
    ensures SingleSpaced(s[i..j])
  {
    forall k | 0 <= k < j - i && IsSpace(s[i..j][k])
      ensures s[i..j][k] == ' ' && (k + 1 < j - i ==> !IsSpace(s[i..j][k + 1]))
    {
      assert s[i..j][k] == s[i + k];
    }
  }

  /** Stripping a single-spaced string leaves a clean one that is no longer. */
  lemma StripShape(s: String)
    requires SingleSpaced(s)
    ensures IsClean(Strip(s)) && |Strip(s)| <= |s|
  {
    var l := StripLeft(s);
    SingleSpacedSlice(s, |s| - |l|, |s|);
    var r := StripRight(l);
    SingleSpacedSlice(l, 0, |r|);
  }

  /** A single-spaced string not starting with whitespace after a space collapses to itself. */
  lemma {:induction false} CollapseKeepsSingleSpaced(s: String, afterSpace: bool)
    requires SingleSpaced(s)
    requires afterSpace && s != [] ==> !IsSpace(s[0])
    ensures CollapseFrom(s, afterSpace) == s
  {
    if s != [] {
      SingleSpacedSlice(s, 1, |s|);
      CollapseKeepsSingleSpaced(s[1..], IsSpace(s[0]));
    }
  }

  /** A clean string is left as it is. */
  lemma CleanTextFixesClean(s: String)
    requires IsClean(s)
    ensures CleanText(s) == s
  {
    if s != [] {
      CollapseKeepsSingleSpaced(s, false);
    }
  }

  /** `clean_text` is idempotent. */
  lemma CleanTextIdempotent(text: String)
    ensures CleanText(CleanText(text)) == CleanText(text)
  {
    CleanTextFixesClean(CleanText(text));
  }

  /** The characters of `s` that are not whitespace, in order. */
  function Visible(s: String): String {
    if s == [] then [] else (if IsSpace(s[0]) then [] else [s[0]]) + Visible(s[1..])
  }

  lemma {:induction false} VisibleConcat(a: String, b: String)
    ensures Visible(a + b) == Visible(a) + Visible(b)
  {
    if a != [] {
      assert (a + b)[1..] == a[1..] + b;
      VisibleConcat(a[1..], b);
    } else {
      assert a + b == b;
    }
  }

  lemma {:induction false} VisibleCollapse(s: String, afterSpace: bool)
    ensures Visible(CollapseFrom(s, afterSpace)) == Visible(s)
  {
    if s != [] {
      VisibleCollapse(s[1..], IsSpace(s[0]));
      var head := if IsSpace(s[0]) then (if afterSpace then [] else [' ']) else [s[0]];
      VisibleConcat(head, CollapseFrom(s[1..], IsSpace(s[0])));
    }
  }

  lemma {:induction false} VisibleStripLeft(s: String)
    ensures Visible(StripLeft(s)) == Visible(s)
  {
    if s != [] && IsSpace(s[0]) {
      VisibleStripLeft(s[1..]);
    }
  }

  lemma {:induction false} VisibleStripRight(s: String)
    ensures Visible(StripRight(s)) == Visible(s)
  {
    if s != [] && IsSpace(s[|s| - 1]) {
      VisibleStripRight(s[..|s| - 1]);
      assert s == s[..|s| - 1] + [s[|s| - 1]];
      VisibleConcat(s[..|s| - 1], [s[|s| - 1]]);
    }
  }

  /** `clean_text` only drops and replaces whitespace: the visible text is kept in order. */
  lemma CleanTextKeepsVisible(text: String)
    ensures Visible(CleanText(text)) == Visible(text)
  {
    if text != [] {
      VisibleCollapse(text, false);
      VisibleStripLeft(Collapse(text));
      VisibleStripRight(StripLeft(Collapse(text)));
    }
  }

  /** `t` is `s` with possibly different whitespace characters at the same places. */
  ghost predicate SameUpToSpaceKind(s: String, t: String) {
    && |s| == |t|
    && forall i :: 0 <= i < |s| ==> (IsSpace(s[i]) <==> IsSpace(t[i])) && (!IsSpace(s[i]) ==> s[i] == t[i])
  }

  lemma {:induction false} CollapseIgnoresSpaceKind(s: String, t: String, afterSpace: bool)
    requires SameUpToSpaceKind(s, t)
    ensures CollapseFrom(s, afterSpace) == CollapseFrom(t, afterSpace)
  {
    if s != [] {
      assert SameUpToSpaceKind(s[1..], t[1..]);
      CollapseIgnoresSpaceKind(s[1..], t[1..], IsSpace(s[0]));
    }
  }

  /** Which whitespace character separates two words does not matter to `clean_text`. */
  lemma CleanTextIgnoresSpaceKind(s: String, t: String)
    requires SameUpToSpaceKind(s, t)
    ensures CleanText(s) == CleanText(t)
  {
    CollapseIgnoresSpaceKind(s, t, false);
  }

  /** Whether the collapse is inside a whitespace run after reading `a`. */
  function AfterSpaceAfter(a: String, afterSpace: bool): bool {
    if a == [] then afterSpace else IsSpace(a[|a| - 1])
  }

  /** Collapsing a concatenation collapses each part, the second knowing how the first ended. */
  lemma {:induction false} CollapseConcat(a: String, b: String, afterSpace: bool)
    ensures CollapseFrom(a + b, afterSpace) == CollapseFrom(a, afterSpace) + CollapseFrom(b, AfterSpaceAfter(a, afterSpace))
  {
    if a == [] {
      assert a + b == b;
    } else {
      assert (a + b)[1..] == a[1..] + b;
      CollapseConcat(a[1..], b, IsSpace(a[0]));
    }
  }

  /** A non-empty run of whitespace collapses to one space, or to nothing right after one. */
  lemma {:induction false} CollapseSpaces(w: String, afterSpace: bool)
    requires w != [] && forall i :: 0 <= i < |w| ==> IsSpace(w[i])
    ensures CollapseFrom(w, afterSpace) == if afterSpace then [] else [' ']
  {
    if |w| > 1 {
      CollapseSpaces(w[1..], true);
    }
  }

  /** Stripping on the left stops inside a string that ends with a visible character. */
  lemma {:induction false} StripLeftConcat(a: String, b: String)
    requires a != [] && !IsSpace(a[|a| - 1])
    ensures StripLeft(a + b) == StripLeft(a) + b
    ensures StripLeft(a) != [] && !IsSpace(StripLeft(a)[|StripLeft(a)| - 1])
  {
    assert (a + b)[0] == a[0];
    if IsSpace(a[0]) {
      assert (a + b)[1..] == a[1..] + b;
      StripLeftConcat(a[1..], b);
    }
  }

  /** Stripping on the right stops inside a string that starts with a visible character. */
  lemma {:induction false} StripRightConcat(a: String, b: String)
    requires b != [] && !IsSpace(b[0])
    ensures StripRight(a + b) == a + StripRight(b)
    ensures StripRight(b) != [] && !IsSpace(StripRight(b)[0])
    decreases |b|
  {
    if IsSpace(b[|b| - 1]) {
      assert (a + b)[..|a + b| - 1] == a + b[..|b| - 1];
      StripRightConcat(a, b[..|b| - 1]);
    }
  }

  /** Collapsing keeps a visible last character last. */
  lemma CollapseEndsVisible(u: String)
    requires u != [] && !IsSpace(u[|u| - 1])
    ensures Collapse(u) != [] && Collapse(u)[|Collapse(u)| - 1] == u[|u| - 1]
  {
    assert u == u[..|u| - 1] + [u[|u| - 1]];
    CollapseConcat(u[..|u| - 1], [u[|u| - 1]], false);
  }

  /** Collapsing the middle run to one space, with the same text on either side. */
  lemma CollapseAroundSpaces(u: String, w: String, v: String)
    requires u != [] && !IsSpace(u[|u| - 1])
    requires v != [] && !IsSpace(v[0])
    requires w != [] && forall i :: 0 <= i < |w| ==> IsSpace(w[i])
    ensures Collapse(u + w + v) == Collapse(u) + [' '] + Collapse(v)
  {
    CollapseConcat(u + w, v, false);
    CollapseConcat(u, w, false);
    CollapseSpaces(w, false);
    assert AfterSpaceAfter(u + w, false) by {
      assert (u + w)[|u + w| - 1] == w[|w| - 1];
    }
    assert CollapseFrom(v, true) == CollapseFrom(v, false);
  }

  /** Stripping around one space between visible characters strips each side on its own. */
  lemma StripAroundSpace(a: String, b: String)
    requires a != [] && !IsSpace(a[|a| - 1])
    requires b != [] && !IsSpace(b[0])
    ensures Strip(a + [' '] + b) == Strip(a) + " " + Strip(b)
  {
    assert a + [' '] + b == a + ([' '] + b);
    StripLeftConcat(a, [' '] + b);
    var l := StripLeft(a);
    assert l + ([' '] + b) == (l + [' ']) + b;
    StripRightConcat(l + [' '], b);
    assert StripRight(l) == l;
    assert StripLeft(b) == b;
  }

  /**
   * A run of whitespace between two visible characters becomes exactly one
   * space, and the text on either side is cleaned on its own.
   */
  lemma CleanTextSplitsAtSpaces(u: String, w: String, v: String)
    requires u != [] && !IsSpace(u[|u| - 1])
    requires v != [] && !IsSpace(v[0])
    requires w != [] && forall i :: 0 <= i < |w| ==> IsSpace(w[i])
    ensures CleanText(u + w + v) == CleanText(u) + " " + CleanText(v)
  {
    CollapseAroundSpaces(u, w, v);
    CollapseEndsVisible(u);
    assert Collapse(v)[0] == v[0];
    StripAroundSpace(Collapse(u), Collapse(v));
  }

  /** A leading space is stripped like any other. */
  lemma StripLeftSpace(x: String)
    ensures StripLeft([' '] + x) == StripLeft(x)
  {
    assert ([' '] + x)[1..] == x;
  }

  /** Whether the collapse starts inside a whitespace run is lost once the left end is stripped. */
  lemma {:induction false} CollapseStateStripped(s: String)
    ensures StripLeft(CollapseFrom(s, true)) == StripLeft(CollapseFrom(s, false))
  {
    if s != [] && IsSpace(s[0]) {
      var rest := CollapseFrom(s[1..], true);
      assert CollapseFrom(s, true) == rest;
      assert CollapseFrom(s, false) == [' '] + rest;
      StripLeftSpace(rest);
    }
  }

  /** A space appended to a string is kept by `lstrip` unless everything before it is whitespace. */
  lemma {:induction false} StripLeftAppendSpace(x: String)
    ensures StripLeft(x + [' ']) == if StripLeft(x) == [] then [] else StripLeft(x) + [' ']
  {
    if x == [] {
      StripLeftSpace([]);
    } else if IsSpace(x[0]) {
      assert (x + [' '])[1..] == x[1..] + [' '];
      StripLeftAppendSpace(x[1..]);
    }
  }

  /** A trailing space is stripped like any other. */
  lemma StripRightSpace(y: String)
    ensures StripRight(y + [' ']) == StripRight(y)
  {
    assert (y + [' '])[..|y|] == y;
  }

  lemma CleanTextDropsLeading(w: String, t: String)
    requires forall i :: 0 <= i < |w| ==> IsSpace(w[i])
    ensures CleanText(w + t) == CleanText(t)
  {
    if w != [] {
      CollapseConcat(w, t, false);
      CollapseSpaces(w, false);
      assert AfterSpaceAfter(w, false);
      StripLeftSpace(CollapseFrom(t, true));
      CollapseStateStripped(t);
    } else {
      assert w + t == t;
    }
  }

  /** Stripping ignores one more space at the end. */
  lemma StripAppendSpace(x: String)
    ensures Strip(x + [' ']) == Strip(x)
  {
    StripLeftAppendSpace(x);
    StripRightSpace(StripLeft(x));
  }

  lemma CleanTextDropsTrailing(w: String, t: String)
    requires forall i :: 0 <= i < |w| ==> IsSpace(w[i])
    ensures CleanText(t + w) == CleanText(t)
  {
    if t == [] {
      assert t + w == w + t;
      CleanTextDropsLeading(w, t);
    } else if w == [] {
      assert t + w == t;
    } else {
      var x := Collapse(t);
      var after := AfterSpaceAfter(t, false);
      CollapseConcat(t, w, false);
      CollapseSpaces(w, after);
      assert Collapse(t + w) == x + CollapseFrom(w, after);
      if after {
        assert Collapse(t + w) == x;
      } else {
        assert Collapse(t + w) == x + [' '];
        StripAppendSpace(x);
      }
    }
  }

  /** Whitespace at either end of the text is dropped and leaves no trace. */
  lemma CleanTextDropsEdges(w: String, t: String)
    requires forall i :: 0 <= i < |w| ==> IsSpace(w[i])
    ensures CleanText(w + t) == CleanText(t) && CleanText(t + w) == CleanText(t)
  {
    CleanTextDropsLeading(w, t);
    CleanTextDropsTrailing(w, t);
  }

  // ---------------------------------------------------------------------------
  // detect_thread
  // ---------------------------------------------------------------------------

  const ReplyIndicators: seq<String> := ["Re:", "RE:", "Fw:", "FW:", "On", "wrote:", "Forwarded message"]

  /** `detect_thread(body)`: "reply" when a lower-cased marker occurs in the lower-cased body. */
  function DetectThread(body: String): (r: String)
    ensures r == "reply" || r == "single"
    ensures r == "reply" <==> exists k :: 0 <= k < |ReplyIndicators| && Contains(Lower(body), Lower(ReplyIndicators[k]))
  {
    if AnyContained(Lower(body), LowerAll(ReplyIndicators)) then "reply" else "single"
  }

  /** The marker "On" makes every body holding "on", in any case, a reply. */
  lemma OnMeansReply(body: String)
    requires Contains(Lower(body), "on")
    ensures DetectThread(body) == "reply"
  {
    assert Lower(ReplyIndicators[4]) == "on";
  }

  /** So a single message that merely asks a "question" is taken for a reply. */
  lemma QuestionMeansReply(body: String)
    requires Contains(Lower(body), "question")
    ensures DetectThread(body) == "reply"
  {
    ContainsAt("question", "on", 6);
    ContainsTrans(Lower(body), "question", "on");
    OnMeansReply(body);
  }

  // ---------------------------------------------------------------------------
  // process_email
  // ---------------------------------------------------------------------------

  datatype IntakeResult = IntakeResult(
    cleanSubject: String,
    cleanBody: String,
    senderIfAvailable: Option<String>,
    threadStatus: String,
    length: nat,
    notes: String)

  /** `process_email(subject, body)`: the thread status is read off the RAW body. */
  function ProcessEmail(subject: String, body: String): (r: IntakeResult)
    ensures r.cleanSubject == CleanText(subject) && r.cleanBody == CleanText(body)
    ensures IsClean(r.cleanBody) && r.length == |r.cleanBody| <= |body|
    ensures r.threadStatus == DetectThread(body)
    ensures r.senderIfAvailable == None && r.notes == ""
  {
    var cleanBody := CleanText(body);
    IntakeResult(CleanText(subject), cleanBody, None, DetectThread(body), |cleanBody|, "")
  }

  lemma LoweredMarkers()
    ensures LowerAll(ReplyIndicators) == ["re:", "re:", "fw:", "fw:", "on", "wrote:", "forwarded message"]
  {
    assert Lower(ReplyIndicators[0]) == "re:" && Lower(ReplyIndicators[1]) == "re:";
    assert Lower(ReplyIndicators[2]) == "fw:" && Lower(ReplyIndicators[3]) == "fw:";
    assert Lower(ReplyIndicators[4]) == "on" && Lower(ReplyIndicators[5]) == "wrote:";
    assert Lower(ReplyIndicators[6]) == "forwarded message";
  }

  lemma SplitBodyLacksColon(low: String)
    requires low == "forwarded\nmessage"
    ensures !Contains(low, "re:") && !Contains(low, "fw:") && !Contains(low, "wrote:")
  {
    assert ':' !in low;
    NotContainsByChar(low, "re:", 2);
    NotContainsByChar(low, "fw:", 2);
    NotContainsByChar(low, "wrote:", 5);
  }

  lemma SplitBodyLacksSpace(low: String)
    requires low == "forwarded\nmessage"
    ensures !Contains(low, "forwarded message")
  {
    assert ' ' !in low;
    NotContainsByChar(low, "forwarded message", 9);
  }

  lemma SplitBodyLacksOn(low: String)
    requires low == "forwarded\nmessage"
    ensures !Contains(low, "on")
  {
    NotContainsByPair(low, "on", 0);
  }

  lemma SplitBodyLacksMarkers(low: String)
    requires low == "forwarded\nmessage"
    ensures forall m :: m in LowerAll(ReplyIndicators) ==> !Contains(low, m)
  {
    SplitBodyLacksColon(low);
    SplitBodyLacksSpace(low);
    SplitBodyLacksOn(low);
    LoweredMarkers();
  }

  lemma SplitMarkerMissed()
    ensures DetectThread("Forwarded\nmessage") == "single"
  {
    var low := Lower("Forwarded\nmessage");
    assert low == "forwarded\nmessage";
    SplitBodyLacksMarkers(low);
    assert !AnyContained(low, LowerAll(ReplyIndicators));
  }

  lemma JoinedBodyIsClean(clean: String)
    requires clean == "Forwarded message"
    ensures IsClean(clean)
  {
    forall i | 0 <= i < |clean| && IsSpace(clean[i]) ensures i == 9 {
    }
  }

  lemma LineBreakCleaned(clean: String)
    requires clean == "Forwarded message"
    ensures CleanText("Forwarded\nmessage") == clean
  {
    var raw := "Forwarded\nmessage";
    assert SameUpToSpaceKind(raw, clean);
    CleanTextIgnoresSpaceKind(raw, clean);
    JoinedBodyIsClean(clean);
    CleanTextFixesClean(clean);
  }

  lemma JoinedMarkerFound(clean: String)
    requires clean == "Forwarded message"
    ensures DetectThread(clean) == "reply"
  {
    var low := Lower(clean);
    assert low == "forwarded message";
    LoweredMarkers();
    assert LowerAll(ReplyIndicators)[6] == low;
    assert low <= low;
  }

  /**
   * Because the markers are matched against the raw body, a marker split by a
   * line break is missed even though the cleaned body holds it.
   */
  lemma ThreadReadFromRawBody()
    ensures ProcessEmail("", "Forwarded\nmessage").threadStatus == "single"
    ensures DetectThread(ProcessEmail("", "Forwarded\nmessage").cleanBody) == "reply"
  {
    SplitMarkerMissed();
    LineBreakCleaned("Forwarded message");
    JoinedMarkerFound("Forwarded message");
  }
}
