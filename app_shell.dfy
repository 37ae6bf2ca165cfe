/**
 * The client's shell: after each completed navigation it reads the broker
 * and queue names out of the URL, hands them to the shared filter, and
 * picks the tab (brokers, queues or messages) and the selection flags from
 * the URL's text.
 */
module AppShell {
  import opened Wrappers
  import opened GoStrings

  predicate StartsWith(s: string, w: string)
  {
    |w| <= |s| && s[..|w|] == w
  }

  // ---- URL decomposition ----------------------------------------------------------

  /** Segment `j` is `word` and has a successor, so the loop assigns that successor. */
  predicate Names(parts: seq<string>, word: string, j: nat)
  {
    j + 1 < |parts| && parts[j] == word
  }

  /**
   * The value the decomposition loop last assigns for `word` over the first
   * `i` segments: the successor of the last such segment, if any.
   */
  function Assigned(parts: seq<string>, word: string, i: nat): (r: Option<string>)
    requires i <= |parts|
    ensures r.None? <==> forall j :: 0 <= j < i ==> !Names(parts, word, j)
    ensures r.Some? ==> exists j :: (0 <= j < i && Names(parts, word, j) && r.value == parts[j + 1] &&
      forall j' :: j < j' < i ==> !Names(parts, word, j'))
  {
    if i == 0 then None
    else if Names(parts, word, i - 1) then Some(parts[i])
    else Assigned(parts, word, i - 1)
  }

  /** The last segment naming `word` decides the value. */
  lemma AssignedByLast(parts: seq<string>, word: string, j: nat)
    requires Names(parts, word, j)
    requires forall j' :: j < j' < |parts| ==> !Names(parts, word, j')
    ensures Assigned(parts, word, |parts|) == Some(parts[j + 1])
  {
  }

  /** A found value replaces the earlier one; otherwise the earlier one stays. */
  function Keep(earlier: Option<string>, found: Option<string>): (r: Option<string>)
    ensures found.Some? ==> r == found
    ensures found.None? ==> r == earlier
  {
    if found.Some? then found else earlier
  }

  // ---- tab classification ------------------------------------------------------------

  /** The tab and the two selection flags the shell shows. */
  datatype Tab = Tab(selectedTab: int, brokerSelected: bool, queueSelected: bool)

  /** The three tab states: brokers, queues of a broker, messages of a queue. */
  predicate Consistent(t: Tab)
  {
    1 <= t.selectedTab <= 3 && t.brokerSelected == (t.selectedTab >= 2) && t.queueSelected == (t.selectedTab == 3)
  }

  /**
   * The tab ladder on the URL's text, first match wins; nothing when no rung
   * matches. The patterns `/\/queues\/+/` and `/\/brokers\/+/` match exactly
   * where "/queues/" and "/brokers/" occur (see `RegexIsContains`).
   */
  function TabFor(url: string): (r: Option<Tab>)
    ensures r.Some? ==> Consistent(r.value)
  {
    if Contains(url, "/message-details") || Contains(url, "/messages") || Contains(url, "/queues/") then
      Some(Tab(3, true, true))
    else if Contains(url, "/queues") || Contains(url, "/brokers/") then Some(Tab(2, true, false))
    else if Contains(url, "/brokers") then Some(Tab(1, false, false))
    else None
  }

  function Slashes(n: nat): (s: string)
    ensures |s| == n && forall k :: 0 <= k < n ==> s[k] == '/'
  {
    seq(n, _ => '/')
  }

  /** The regular expression `/\/word\/+/`: "/word" followed by one or more slashes, anywhere. */
  ghost predicate MatchesSlashRun(url: string, word: string)
  {
    exists i: nat, n: nat :: n >= 1 && OccursAt(url, "/" + word + Slashes(n), i)
  }

  /** A run of one or more slashes after "/word" occurs exactly where "/word/" does. */
  lemma RegexIsContains(url: string, word: string)
    ensures MatchesSlashRun(url, word) <==> Contains(url, "/" + word + "/")
  {
    ContainsIff(url, "/" + word + "/");
    var w := "/" + word + "/";
    if MatchesSlashRun(url, word) {
      var i: nat, n: nat :| n >= 1 && OccursAt(url, "/" + word + Slashes(n), i);
      var long := "/" + word + Slashes(n);
      assert long[..|w|] == w;
      assert url[i..i + |w|] == long[..|w|];
      assert OccursAt(url, w, i);
    }
    if Contains(url, w) {
      var i :| OccursAt(url, w, i);
      assert Slashes(1) == "/";
      assert OccursAt(url, "/" + word + Slashes(1), i);
    }
  }

  // ---- the ladder in terms of segments ---------------------------------------------------

  /** Some segment after the first begins with `w`. */
  ghost predicate SegmentStarts(parts: seq<string>, w: string)
  {
    exists k :: 1 <= k < |parts| && StartsWith(parts[k], w)
  }

  /** Some segment after the first and before the last is `w`. */
  ghost predicate InnerSegment(parts: seq<string>, w: string)
  {
    exists k :: 1 <= k < |parts| - 1 && parts[k] == w
  }

  predicate SlashFree(parts: seq<string>)
  {
    forall k :: 0 <= k < |parts| ==> '/' !in parts[k]
  }

  /** A match strictly inside the text after the first separator is a match of that text. */
  lemma OccursShift(a: string, r: string, x: string, i: nat)
    ensures OccursAt(a + "/" + r, x, |a| + 1 + i) <==> OccursAt(r, x, i)
  {
    var u := a + "/" + r;
    if |a| + 1 + i + |x| <= |u| {
      assert u[|a| + 1 + i..|a| + 1 + i + |x|] == r[i..i + |x|];
    }
  }

  /** "/v" at the separator right after `a` is `v` at the start of what follows. */
  lemma OccursAtSeparator(a: string, r: string, v: string)
    ensures OccursAt(a + "/" + r, "/" + v, |a|) <==> OccursAt(r, v, 0)
  {
    var u := a + "/" + r;
    if |a| + 1 + |v| <= |u| {
      var piece := r[..|v|];
      assert u[|a|..|a| + 1 + |v|] == "/" + piece;
      assert ("/" + piece)[1..] == piece && ("/" + v)[1..] == v;
    }
  }

  /** The characters of a match are those of the pattern. */
  lemma OccursAtChars(u: string, x: string, i: nat)
    ensures OccursAt(u, x, i) ==> forall k :: 0 <= k < |x| ==> u[i + k] == x[k]
  {
    if OccursAt(u, x, i) {
      forall k | 0 <= k < |x|
        ensures u[i + k] == x[k]
      {
        assert u[i..i + |x|][k] == x[k];
      }
    }
  }

  /** The joined text starts with a slash-free `w` exactly when its first segment does. */
  lemma JoinStartsWith(parts: seq<string>, w: string)
    requires |parts| >= 1 && SlashFree(parts) && '/' !in w
    ensures OccursAt(Join(parts, '/'), w, 0) <==> StartsWith(parts[0], w)
  {
    var u := Join(parts, '/');
    OccursAtChars(u, w, 0);
    if |parts| > 1 {
      var p0 := parts[0];
      assert u == p0 + "/" + Join(parts[1..], '/');
      assert u[|p0|] == '/';
      if StartsWith(p0, w) {
        assert u[..|w|] == p0[..|w|];
      }
      if OccursAt(u, w, 0) {
        assert |w| <= |p0|;
        assert u[..|w|] == p0[..|w|];
      }
    }
  }

  /** A slash-free first segment followed by a slash starts with `w` + "/" exactly when it is `w`. */
  lemma PrefixWithSlash(p0: string, r: string, w: string)
    requires '/' !in p0 && '/' !in w
    ensures OccursAt(p0 + "/" + r, w + "/", 0) <==> p0 == w
  {
    var u := p0 + "/" + r;
    var x := w + "/";
    if p0 == w {
      assert u[..|x|] == x;
    }
    if OccursAt(u, x, 0) {
      OccursAtChars(u, x, 0);
      assert forall k :: 0 <= k < |p0| ==> u[k] == p0[k];
      assert u[|p0|] == '/';
      assert forall k :: 0 <= k < |w| ==> x[k] == w[k];
      assert x[|w|] == '/';
      assert |p0| == |w|;
      assert p0 == u[..|w|] == x[..|w|] == w;
    }
  }

  /** The joined text starts with `w` + "/" exactly when its first segment is `w` and another follows. */
  lemma JoinStartsWithSegment(parts: seq<string>, w: string)
    requires |parts| >= 1 && SlashFree(parts) && '/' !in w
    ensures OccursAt(Join(parts, '/'), w + "/", 0) <==> |parts| > 1 && parts[0] == w
  {
    if |parts| == 1 {
      var x := w + "/";
      OccursAtChars(parts[0], x, 0);
      assert x[|w|] == '/';
    } else {
      assert Join(parts, '/') == parts[0] + "/" + Join(parts[1..], '/');
      PrefixWithSlash(parts[0], Join(parts[1..], '/'), w);
    }
  }

  /** Some join of the segments from a later one onwards starts with `v`. */
  ghost predicate LaterJoinStarts(parts: seq<string>, v: string)
  {
    exists k :: 1 <= k < |parts| && OccursAt(Join(parts[k..], '/'), v, 0)
  }

  /** A pattern that starts with '/' cannot start inside the slash-free text before the first separator. */
  lemma SlashAfterFirst(a: string, r: string, x: string)
    requires '/' !in a && |x| > 0 && x[0] == '/'
    ensures Contains(a + "/" + r, x) <==> OccursAt(a + "/" + r, x, |a|) || Contains(r, x)
  {
    var u := a + "/" + r;
    ContainsIff(u, x);
    ContainsIff(r, x);
    if Contains(u, x) && !OccursAt(u, x, |a|) {
      var i: nat :| OccursAt(u, x, i);
      OccursAtChars(u, x, i);
      assert forall j :: 0 <= j < |a| ==> u[j] == a[j];
      assert i > |a|;
      OccursShift(a, r, x, i - |a| - 1);
    }
    if Contains(r, x) {
      var i: nat :| OccursAt(r, x, i);
      OccursShift(a, r, x, i);
    }
  }

  /** A later join of `parts` is the join of `parts[1..]` itself or one of its later joins. */
  lemma LaterJoinStartsStep(parts: seq<string>, v: string)
    requires |parts| > 1
    ensures LaterJoinStarts(parts, v) <==>
      OccursAt(Join(parts[1..], '/'), v, 0) || LaterJoinStarts(parts[1..], v)
  {
    var rest := parts[1..];
    if LaterJoinStarts(parts, v) {
      var k :| 1 <= k < |parts| && OccursAt(Join(parts[k..], '/'), v, 0);
      assert rest[k - 1..] == parts[k..];
    }
    if LaterJoinStarts(rest, v) {
      var k :| 1 <= k < |rest| && OccursAt(Join(rest[k..], '/'), v, 0);
      assert rest[k..] == parts[k + 1..];
    }
  }

  /** "/v" occurs in the joined text exactly where a later segment starts, followed by `v`. */
  lemma {:induction false} SlashPatternInJoin(parts: seq<string>, v: string)
    requires |parts| >= 1 && SlashFree(parts)
    ensures Contains(Join(parts, '/'), "/" + v) <==> LaterJoinStarts(parts, v)
    decreases |parts|
  {
    var u := Join(parts, '/');
    var x := "/" + v;
    assert x[0] == '/';
    if |parts| == 1 {
      ContainsIff(u, x);
      forall i: nat
        ensures !OccursAt(u, x, i)
      {
        OccursAtChars(u, x, i);
      }
    } else {
      var a, rest := parts[0], parts[1..];
      var r := Join(rest, '/');
      assert u == a + "/" + r;
      SlashPatternInJoin(rest, v);
      SlashAfterFirst(a, r, x);
      OccursAtSeparator(a, r, v);
      LaterJoinStartsStep(parts, v);
    }
  }

  /** "/w" occurs in the joined text exactly when a segment after the first begins with `w`. */
  lemma SlashWordInJoin(parts: seq<string>, w: string)
    requires |parts| >= 1 && SlashFree(parts) && '/' !in w
    ensures Contains(Join(parts, '/'), "/" + w) <==> SegmentStarts(parts, w)
  {
    SlashPatternInJoin(parts, w);
    forall k | 1 <= k < |parts|
      ensures OccursAt(Join(parts[k..], '/'), w, 0) <==> StartsWith(parts[k], w)
    {
      JoinStartsWith(parts[k..], w);
    }
  }

  /** "/w/" occurs in the joined text exactly when an inner segment is `w`. */
  lemma SlashSegmentInJoin(parts: seq<string>, w: string)
    requires |parts| >= 1 && SlashFree(parts) && '/' !in w
    ensures Contains(Join(parts, '/'), "/" + w + "/") <==> InnerSegment(parts, w)
  {
    assert "/" + w + "/" == "/" + (w + "/");
    SlashPatternInJoin(parts, w + "/");
    forall k | 1 <= k < |parts|
      ensures OccursAt(Join(parts[k..], '/'), w + "/", 0) <==> k < |parts| - 1 && parts[k] == w
    {
      JoinStartsWithSegment(parts[k..], w);
    }
  }

  /** The ladder stated on the URL's segments rather than its text. */
  ghost function SegmentTab(parts: seq<string>): Option<Tab>
  {
    if SegmentStarts(parts, "message-details") || SegmentStarts(parts, "messages") || InnerSegment(parts, "queues") then
      Some(Tab(3, true, true))
    else if SegmentStarts(parts, "queues") || InnerSegment(parts, "brokers") then Some(Tab(2, true, false))
    else if SegmentStarts(parts, "brokers") then Some(Tab(1, false, false))
    else None
  }

  /**
   * Tab 3 when a later segment begins with "message-details" or "messages"
   * or an inner segment is "queues"; else tab 2 when a later segment begins
   * with "queues" or an inner segment is "brokers"; else tab 1 when a later
   * segment begins with "brokers".
   */
  lemma TabBySegments(url: string)
    ensures TabFor(url) == SegmentTab(Split(url, '/'))
  {
    SlashWordInUrl(url, "message-details");
    assert "/" + "message-details" == "/message-details";
    SlashWordInUrl(url, "messages");
    assert "/" + "messages" == "/messages";
    SlashWordInUrl(url, "queues");
    assert "/" + "queues" == "/queues";
    SlashWordInUrl(url, "brokers");
    assert "/" + "brokers" == "/brokers";
    SlashSegmentInUrl(url, "queues");
    assert "/" + "queues" + "/" == "/queues/";
    SlashSegmentInUrl(url, "brokers");
    assert "/" + "brokers" + "/" == "/brokers/";
  }

  lemma SlashWordInUrl(url: string, w: string)
    requires '/' !in w
    ensures Contains(url, "/" + w) <==> SegmentStarts(Split(url, '/'), w)
  {
    JoinSplit(url, '/');
    SlashWordInJoin(Split(url, '/'), w);
  }

  lemma SlashSegmentInUrl(url: string, w: string)
    requires '/' !in w
    ensures Contains(url, "/" + w + "/") <==> InnerSegment(Split(url, '/'), w)
  {
    JoinSplit(url, '/');
    SlashSegmentInJoin(Split(url, '/'), w);
  }

  // ---- the application's routes -----------------------------------------------------------

  /** Splitting the joined slash-free segments gives the segments back. */
  lemma {:induction false} SplitJoin(parts: seq<string>)
    requires |parts| >= 1 && SlashFree(parts)
    ensures Split(Join(parts, '/'), '/') == parts
    decreases |parts|
  {
    if |parts| > 1 {
      var p0, rest := parts[0], parts[1..];
      var u := Join(parts, '/');
      var r := Join(rest, '/');
      assert u == p0 + "/" + r;
      assert u[|p0|] == '/' && u[..|p0|] == p0;
      assert CharIndex(u, '/') == |p0|;
      assert u[|p0| + 1..] == r;
      SplitJoin(rest);
    }
  }

  /** A broker or queue name that contains no slash and does not begin with a word the ladder looks for. */
  predicate PlainName(s: string)
  {
    '/' !in s && !StartsWith(s, "brokers") && !StartsWith(s, "queues") && !StartsWith(s, "messages") &&
    !StartsWith(s, "message-details")
  }

  /** What one navigation to the URL made of these segments decides: the tab and the two names found. */
  function Outcome(parts: seq<string>): (Option<Tab>, Option<string>, Option<string>)
  {
    var url := Join(parts, '/');
    var p := Split(url, '/');
    (TabFor(url), Assigned(p, "brokers", |p|), Assigned(p, "queues", |p|))
  }

  /** A text whose `k`-th character differs from the word's, or that is too short, does not begin with it. */
  lemma NotStartsWith(s: string, w: string, k: nat)
    requires k < |w| && (k >= |s| || s[k] != w[k])
    ensures !StartsWith(s, w)
  {
    if |w| <= |s| {
      assert s[..|w|][k] == s[k];
    }
  }

  /** The broker list, "/brokers": tab 1, no names found. */
  lemma RouteBrokers()
    ensures Outcome(["", "brokers"]) == (Some(Tab(1, false, false)), None, None)
  {
    BrokersRoute();
    RouteOutcome(["", "brokers"], Some(Tab(1, false, false)), None, None);
  }

  lemma BrokersRoute()
    ensures var p := ["", "brokers"];
      SegmentTab(p) == Some(Tab(1, false, false)) && Assigned(p, "brokers", |p|) == None && Assigned(p, "queues", |p|) == None
  {
    var p := ["", "brokers"];
    NotStartsWith("brokers", "messages", 0);
    NotStartsWith("brokers", "message-details", 0);
    NotStartsWith("brokers", "queues", 0);
    assert SegmentTab(p) == Some(Tab(1, false, false)) by {
      assert StartsWith(p[1], "brokers");
    }
    assert !Names(p, "brokers", 0) && !Names(p, "brokers", 1) && !Names(p, "queues", 0) && !Names(p, "queues", 1);
  }

  /** A plain name is none of the ladder's words, and the words do not begin with one another. */
  lemma PlainNameFacts(s: string)
    requires PlainName(s)
    ensures s != "brokers" && s != "queues" && s != "messages" && s != "message-details"
  {
    assert StartsWith("brokers", "brokers") && StartsWith("queues", "queues");
    assert StartsWith("messages", "messages") && StartsWith("message-details", "message-details");
  }

  /** A broker, "/brokers/b": tab 2 with broker b. */
  lemma RouteBroker(b: string)
    requires PlainName(b)
    ensures Outcome(["", "brokers", b]) == (Some(Tab(2, true, false)), Some(b), None)
  {
    BrokerRoute(b);
    RouteOutcome(["", "brokers", b], Some(Tab(2, true, false)), Some(b), None);
  }

  lemma BrokerRoute(b: string)
    requires PlainName(b)
    ensures var p := ["", "brokers", b];
      SegmentTab(p) == Some(Tab(2, true, false)) && Assigned(p, "brokers", |p|) == Some(b) && Assigned(p, "queues", |p|) == None
  {
    var p := ["", "brokers", b];
    PlainNameFacts(b);
    assert SegmentTab(p) == Some(Tab(2, true, false)) by {
      assert InnerSegment(p, "brokers");
      assert !SegmentStarts(p, "message-details") && !SegmentStarts(p, "messages") && !InnerSegment(p, "queues") by {
        NotStartsWith("brokers", "messages", 0);
        NotStartsWith("brokers", "message-details", 0);
        assert !StartsWith(p[2], "messages") && !StartsWith(p[2], "message-details") && p[1] != "queues";
      }
    }
    assert Assigned(p, "brokers", |p|) == Some(b) by {
      AssignedByLast(p, "brokers", 1);
    }
    assert Assigned(p, "queues", |p|) == None;
  }

  /** A broker's queue list, "/brokers/b/queues": tab 2 with broker b. */
  lemma RouteQueues(b: string)
    requires PlainName(b)
    ensures Outcome(["", "brokers", b, "queues"]) == (Some(Tab(2, true, false)), Some(b), None)
  {
    QueuesRoute(b);
    RouteOutcome(["", "brokers", b, "queues"], Some(Tab(2, true, false)), Some(b), None);
  }

  lemma QueuesRoute(b: string)
    requires PlainName(b)
    ensures var p := ["", "brokers", b, "queues"];
      SegmentTab(p) == Some(Tab(2, true, false)) && Assigned(p, "brokers", |p|) == Some(b) && Assigned(p, "queues", |p|) == None
  {
    var p := ["", "brokers", b, "queues"];
    PlainNameFacts(b);
    assert SegmentTab(p) == Some(Tab(2, true, false)) by {
      assert StartsWith(p[3], "queues");
      assert !SegmentStarts(p, "message-details") && !SegmentStarts(p, "messages") && !InnerSegment(p, "queues") by {
        NotStartsWith("brokers", "messages", 0);
        NotStartsWith("brokers", "message-details", 0);
        NotStartsWith("queues", "messages", 0);
        NotStartsWith("queues", "message-details", 0);
      }
    }
    assert Assigned(p, "brokers", |p|) == Some(b) by {
      AssignedByLast(p, "brokers", 1);
    }
    assert Assigned(p, "queues", |p|) == None;
  }

  /** A queue, "/brokers/b/queues/q": tab 3 with broker b and queue q. */
  lemma RouteQueue(b: string, q: string)
    requires PlainName(b) && PlainName(q)
    ensures Outcome(["", "brokers", b, "queues", q]) == (Some(Tab(3, true, true)), Some(b), Some(q))
  {
    QueuePage(["", "brokers", b, "queues", q], b, q);
  }

  /** A queue's messages, "/brokers/b/queues/q/messages": tab 3 with broker b and queue q. */
  lemma RouteMessages(b: string, q: string)
    requires PlainName(b) && PlainName(q)
    ensures Outcome(["", "brokers", b, "queues", q, "messages"]) == (Some(Tab(3, true, true)), Some(b), Some(q))
  {
    QueuePage(["", "brokers", b, "queues", q, "messages"], b, q);
  }

  /** A message's details, "/brokers/b/queues/q/messages/message-details": tab 3 with broker b and queue q. */
  lemma RouteDetails(b: string, q: string)
    requires PlainName(b) && PlainName(q)
    ensures Outcome(["", "brokers", b, "queues", q, "messages", "message-details"]) ==
      (Some(Tab(3, true, true)), Some(b), Some(q))
  {
    QueuePage(["", "brokers", b, "queues", q, "messages", "message-details"], b, q);
  }

  /** Any page below "/brokers/b/queues/q" whose later segments are neither "brokers" nor "queues". */
  lemma QueuePage(p: seq<string>, b: string, q: string)
    requires PlainName(b) && PlainName(q) && SlashFree(p)
    requires |p| >= 5 && p[0] == "" && p[1] == "brokers" && p[2] == b && p[3] == "queues" && p[4] == q
    requires forall j :: 5 <= j < |p| ==> p[j] != "brokers" && p[j] != "queues"
    ensures Outcome(p) == (Some(Tab(3, true, true)), Some(b), Some(q))
  {
    assert SegmentTab(p) == Some(Tab(3, true, true)) by {
      assert 3 < |p| - 1 && p[3] == "queues";
    }
    QueuePageNames(p, b, q);
    RouteOutcome(p, Some(Tab(3, true, true)), Some(b), Some(q));
  }

  lemma QueuePageNames(p: seq<string>, b: string, q: string)
    requires PlainName(b) && PlainName(q)
    requires |p| >= 5 && p[0] == "" && p[1] == "brokers" && p[2] == b && p[3] == "queues" && p[4] == q
    requires forall j :: 5 <= j < |p| ==> p[j] != "brokers" && p[j] != "queues"
    ensures Assigned(p, "brokers", |p|) == Some(b) && Assigned(p, "queues", |p|) == Some(q)
  {
    forall j | 1 < j < |p| ensures p[j] != "brokers" {
      if j == 2 || j == 4 {
        PlainNameFacts(p[j]);
      }
    }
    LastNamed(p, "brokers", 1);
    forall j | 3 < j < |p| ensures p[j] != "queues" {
      if j == 4 {
        PlainNameFacts(q);
      }
    }
    LastNamed(p, "queues", 3);
  }

  /**
   * The ladder reads the text, not the route: a broker whose name begins
   * with "messages" opens its queue list on the messages tab, with a queue
   * selected though none is named.
   */
  lemma BrokerNamedLikeMessages()
    ensures Outcome(["", "brokers", "messages-eu"]) == (Some(Tab(3, true, true)), Some("messages-eu"), None)
  {
    var p := ["", "brokers", "messages-eu"];
    assert SegmentTab(p) == Some(Tab(3, true, true)) by {
      assert StartsWith(p[2], "messages");
    }
    assert Assigned(p, "brokers", |p|) == Some("messages-eu") by {
      AssignedByLast(p, "brokers", 1);
    }
    assert !Names(p, "queues", 0) && !Names(p, "queues", 1) && !Names(p, "queues", 2);
    RouteOutcome(p, Some(Tab(3, true, true)), Some("messages-eu"), None);
  }

  /**
   * The decomposition takes the segment after the last "queues": the
   * messages of a queue named "queues" are read as a queue named "messages".
   */
  lemma QueueNamedQueues(b: string)
    requires PlainName(b)
    ensures Outcome(["", "brokers", b, "queues", "queues", "messages"]) == (Some(Tab(3, true, true)), Some(b), Some("messages"))
  {
    var p := ["", "brokers", b, "queues", "queues", "messages"];
    PlainNameFacts(b);
    assert SegmentTab(p) == Some(Tab(3, true, true)) by {
      assert StartsWith(p[5], "messages");
    }
    forall j | 1 < j < |p| ensures p[j] != "brokers" {
    }
    LastNamed(p, "brokers", 1);
    LastNamed(p, "queues", 4);
    RouteOutcome(p, Some(Tab(3, true, true)), Some(b), Some("messages"));
  }

  /** When segment `i` is `word` and no later segment is, the loop last assigns the one after it. */
  lemma LastNamed(p: seq<string>, word: string, i: nat)
    requires i + 1 < |p| && p[i] == word
    requires forall j :: i < j < |p| ==> p[j] != word
    ensures Assigned(p, word, |p|) == Some(p[i + 1])
  {
    AssignedByLast(p, word, i);
  }

  /** The outcome from the tab the segments give and the names they assign. */
  lemma RouteOutcome(parts: seq<string>, tab: Option<Tab>, broker: Option<string>, queue: Option<string>)
    requires |parts| >= 1 && SlashFree(parts)
    requires SegmentTab(parts) == tab
    requires Assigned(parts, "brokers", |parts|) == broker && Assigned(parts, "queues", |parts|) == queue
    ensures Outcome(parts) == (tab, broker, queue)
  {
    RouteFacts(parts);
  }

  lemma RouteFacts(parts: seq<string>)
    requires |parts| >= 1 && SlashFree(parts)
    ensures Outcome(parts) == (SegmentTab(parts), Assigned(parts, "brokers", |parts|), Assigned(parts, "queues", |parts|))
  {
    SplitJoin(parts);
    TabBySegments(Join(parts, '/'));
  }

  // ---- the component ------------------------------------------------------------------

  class Shell {
    var brokerName: Option<string>
    var queueName: Option<string>
    var selectedTab: int
    var brokerSelected: bool
    var queueSelected: bool
    /** The shared filter's broker and queue names. */
    var filterBrokerName: Option<string>
    var filterQueueName: Option<string>

    ghost predicate Valid()
      reads this
    {
      Consistent(Tab(selectedTab, brokerSelected, queueSelected))
    }

    /** Construction and initialisation: nothing selected, the brokers tab, no names yet. */
    constructor ()
      ensures Valid()
      ensures selectedTab == 1 && !brokerSelected && !queueSelected
      ensures brokerName.None? && queueName.None?
    {
      brokerSelected := false;
      queueSelected := false;
      brokerName := None;
      queueName := None;
      filterBrokerName := None;
      filterQueueName := None;
      selectedTab := 1;
    }

    /** The tab ladder of the NavigationEnd handler; when no rung matches, nothing changes. */
    method SelectTabFor(url: string)
      requires Valid()
      modifies this
      ensures Valid()
      ensures TabFor(url).Some? ==> Tab(selectedTab, brokerSelected, queueSelected) == TabFor(url).value
      ensures TabFor(url).None? ==>
        (selectedTab == old(selectedTab) && brokerSelected == old(brokerSelected) && queueSelected == old(queueSelected))
      ensures brokerName == old(brokerName) && queueName == old(queueName)
      ensures filterBrokerName == old(filterBrokerName) && filterQueueName == old(filterQueueName)
    {
      if Contains(url, "/message-details") || Contains(url, "/messages") || Contains(url, "/queues/") {
        selectedTab := 3;
        brokerSelected := true;
        queueSelected := true;
      } else if Contains(url, "/queues") || Contains(url, "/brokers/") {
        selectedTab := 2;
        brokerSelected := true;
        queueSelected := false;
      } else if Contains(url, "/brokers") {
        selectedTab := 1;
        brokerSelected := false;
        queueSelected := false;
      }
    }

    /**
     * The NavigationEnd handler: decompose the URL, share the names with the
     * filter, and let the ladder choose the tab, if a rung matches.
     */
    method OnNavigationEnd(url: string)
      requires Valid()
      modifies this
      ensures Valid()
      ensures brokerName == Keep(old(brokerName), Assigned(Split(url, '/'), "brokers", |Split(url, '/')|))
      ensures queueName == Keep(old(queueName), Assigned(Split(url, '/'), "queues", |Split(url, '/')|))
      ensures filterBrokerName == brokerName && filterQueueName == queueName
      ensures TabFor(url).Some? ==> Tab(selectedTab, brokerSelected, queueSelected) == TabFor(url).value
      ensures TabFor(url).None? ==>
        (selectedTab == old(selectedTab) && brokerSelected == old(brokerSelected) && queueSelected == old(queueSelected))
    {
      DecomposeUrl(Split(url, '/'));
      filterBrokerName := brokerName;
      filterQueueName := queueName;
      SelectTabFor(url);
    }

    /** The handler's loop over the URL's segments: each "brokers" or "queues" segment names its successor. */
    method DecomposeUrl(urlParts: seq<string>)
      modifies this
      ensures brokerName == Keep(old(brokerName), Assigned(urlParts, "brokers", |urlParts|))
      ensures queueName == Keep(old(queueName), Assigned(urlParts, "queues", |urlParts|))
      ensures selectedTab == old(selectedTab) && brokerSelected == old(brokerSelected)
      ensures queueSelected == old(queueSelected)
      ensures filterBrokerName == old(filterBrokerName) && filterQueueName == old(filterQueueName)
    {
      for i := 0 to |urlParts|
        invariant brokerName == Keep(old(brokerName), Assigned(urlParts, "brokers", i))
        invariant queueName == Keep(old(queueName), Assigned(urlParts, "queues", i))
        invariant selectedTab == old(selectedTab) && brokerSelected == old(brokerSelected)
        invariant queueSelected == old(queueSelected)
        invariant filterBrokerName == old(filterBrokerName) && filterQueueName == old(filterQueueName)
      {
        if urlParts[i] == "brokers" && i + 1 < |urlParts| {
          brokerName := Some(urlParts[i + 1]);
        } else if urlParts[i] == "queues" && i + 1 < |urlParts| {
          queueName := Some(urlParts[i + 1]);
        }
      }
    }
  }
}
