/**
 * What the bulk status transition guarantees, stated over the specification
 * functions of PostStatusUpdater (which PostStore.ProcessForm is proved to
 * follow): the form gate touches nothing, writes are guarded by a read of
 * the expected status, only resolved posts change, a fully successful batch
 * leaves every post in the new status, and running it again changes nothing.
 */
module BatchProperties {
  import opened PhpStrings
  import opened PostStatusUpdater

  /** Every notice reports a confirmed update. */
  predicate AllUpdated(notices: seq<Notice>)
  {
    forall i :: 0 <= i < |notices| ==> notices[i].Report? && notices[i].result == Updated
  }

  // ---------------------------------------------------------------------
  // The gate
  // ---------------------------------------------------------------------

  /** A submission that fails the nonce check, has an empty field, or lists a
      URL the validator rejects gets exactly one error notice; no URL is
      looked up, no post is read or written, and the store is unchanged. */
  lemma RefusedSubmissionTouchesNothing(host: Host, store: Store, form: Form)
    requires var urls := ParseUrls(UrlText(form));
      || !form.nonceVerified
      || PhpEmpty(UrlText(form))
      || PhpEmpty(StatusField(host, form.expectedStatus))
      || PhpEmpty(StatusField(host, form.newStatus))
      || exists i :: 0 <= i < |urls| && !host.isValidUrl(urls[i])
    ensures var b := HandleSubmission(host, store, form);
      |b.notices| == 1 && !b.notices[0].Report? && b.calls == [] && b.store == store
  {
  }

  /** A blank line inside the URL text (one that trims to nothing) is a URL
      the validator rejects, so the whole batch is refused before any post
      is looked up. */
  lemma BlankLineRefusesBatch(host: Host, store: Store, form: Form, line: nat)
    requires !host.isValidUrl("")
    requires line < |Explode(UrlText(form))|
    requires forall j :: 0 <= j < |Explode(UrlText(form))[line]| ==> IsTrimmable(Explode(UrlText(form))[line][j])
    ensures var b := HandleSubmission(host, store, form);
      |b.notices| == 1 && !b.notices[0].Report? && b.calls == [] && b.store == store
  {
    var urls := ParseUrls(UrlText(form));
    assert urls[line] == Trim(Explode(UrlText(form))[line]);
    assert urls[line] == "";
    RefusedSubmissionTouchesNothing(host, store, form);
  }

  // ---------------------------------------------------------------------
  // Writes
  // ---------------------------------------------------------------------

  /** Every write of a batch sets the new status and directly follows a read
      of the same post that saw the expected status. */
  lemma {:induction false} WritesFollowMatchingReads(host: Host, store: Store, urls: seq<string>, expected: string, target: string)
    ensures GuardedWrites(ProcessUrls(host, store, urls, expected, target).calls, expected, target)
    decreases |urls|
  {
    if urls != [] {
      var s := ProcessUrl(host, store, urls[0], expected, target);
      if !s.notice.result.IsFatal() {
        var rest := ProcessUrls(host, s.store, urls[1..], expected, target);
        WritesFollowMatchingReads(host, s.store, urls[1..], expected, target);
        GuardedWritesAppend(s.calls, rest.calls, expected, target);
      }
    }
  }

  /** Only posts that the reported URLs resolve to are written. */
  lemma {:induction false} WritesOnlyResolvedPosts(host: Host, store: Store, urls: seq<string>, expected: string, target: string)
    ensures var r := ProcessUrls(host, store, urls, expected, target);
      WrittenIds(r.calls) <= ResolvedIds(host, urls[..|r.notices|])
    decreases |urls|
  {
    var r := ProcessUrls(host, store, urls, expected, target);
    if urls != [] {
      var s := ProcessUrl(host, store, urls[0], expected, target);
      var k := |r.notices|;
      assert WritesOnlyExpected(host, store, urls[0], expected, s.calls);
      assert r.notices[0] == s.notice;
      PrefixIds(host, urls, k);
      if s.notice.result.IsFatal() {
        assert r.calls == s.calls;
      } else {
        var rest := ProcessUrls(host, s.store, urls[1..], expected, target);
        WritesOnlyResolvedPosts(host, s.store, urls[1..], expected, target);
        WrittenIdsAppend(s.calls, rest.calls);
        assert r.calls == s.calls + rest.calls && k == |rest.notices| + 1;
      }
    }
  }

  /** The posts a list of URLs resolves to. */
  function ResolvedIds(host: Host, urls: seq<string>): set<PostId>
  {
    set u | u in urls :: host.urlToPostId(u)
  }

  /** The posts the first k URLs resolve to: the first URL's post and those
      of the k - 1 URLs after it. */
  lemma PrefixIds(host: Host, urls: seq<string>, k: nat)
    requires 1 <= k <= |urls|
    ensures ResolvedIds(host, urls[..k]) == {host.urlToPostId(urls[0])} + ResolvedIds(host, urls[1..][..k - 1])
  {
    assert urls[..k] == [urls[0]] + urls[1..][..k - 1];
  }

  /** A post that no call of the batch wrote keeps its status. */
  lemma {:induction false} UnwrittenPostsUnchanged(host: Host, store: Store, urls: seq<string>, expected: string, target: string)
    ensures var r := ProcessUrls(host, store, urls, expected, target);
      forall id :: id in store && id !in WrittenIds(r.calls) ==> r.store[id] == store[id]
    decreases |urls|
  {
    if urls != [] {
      var s := ProcessUrl(host, store, urls[0], expected, target);
      assert WritesOnlyExpected(host, store, urls[0], expected, s.calls);
      assert ChangesOnlyOwnPost(host, store, urls[0], s);
      if !s.notice.result.IsFatal() {
        var rest := ProcessUrls(host, s.store, urls[1..], expected, target);
        UnwrittenPostsUnchanged(host, s.store, urls[1..], expected, target);
        WrittenIdsAppend(s.calls, rest.calls);
      }
    }
  }

  // ---------------------------------------------------------------------
  // Halting and skipping
  // ---------------------------------------------------------------------

  /** A URL whose post loads in the expected status but whose write is
      rejected, or stores another status, ends the batch right there: one
      fatal notice for it, and no later URL is looked up. */
  lemma UnconfirmedWriteHaltsBatch(host: Host, store: Store, urls: seq<string>, expected: string, target: string)
    requires urls != []
    requires var id := host.urlToPostId(urls[0]);
      id != 0 && id in store && store[id] == expected && host.wpUpdatePost(id, target) != Stored(target)
    ensures var r := ProcessUrls(host, store, urls, expected, target);
      var id := host.urlToPostId(urls[0]);
      r.notices == [Report(urls[0], if host.wpUpdatePost(id, target).Rejected? then UpdateFailed else VerifyFailed)] &&
      Resolved(r.calls) == [urls[0]] &&
      (host.wpUpdatePost(id, target).Rejected? ==> r.store == store)
  {
    StepOutcome(host, store, urls[0], expected, target);
  }

  /** A URL that names no post, names a post that does not load, or names a
      post in another status is reported, changes nothing, and the batch goes
      on with the next URL. */
  lemma SkippedUrlContinues(host: Host, store: Store, urls: seq<string>, expected: string, target: string)
    requires urls != []
    requires var id := host.urlToPostId(urls[0]);
      !(id != 0 && id in store && store[id] == expected)
    ensures var r := ProcessUrls(host, store, urls, expected, target);
      var rest := ProcessUrls(host, store, urls[1..], expected, target);
      var s := ProcessUrl(host, store, urls[0], expected, target);
      !s.notice.result.IsFatal() && s.store == store &&
      r.notices == [s.notice] + rest.notices && r.store == rest.store
  {
    var s := ProcessUrl(host, store, urls[0], expected, target);
    StepOutcome(host, store, urls[0], expected, target);
    assert WritesOnlyExpected(host, store, urls[0], expected, s.calls);
    assert ChangesOnlyOwnPost(host, store, urls[0], s);
  }

  // ---------------------------------------------------------------------
  // Fully successful batches
  // ---------------------------------------------------------------------

  /** One notice per URL, each reporting the same outcome. */
  predicate ReportsAll(notices: seq<Notice>, urls: seq<string>, result: UrlResult)
  {
    |notices| == |urls| && forall i :: 0 <= i < |urls| ==> notices[i] == Report(urls[i], result)
  }

  /** Every URL resolves to a post that is in the store with status target. */
  predicate AllAtTarget(host: Host, store: Store, urls: seq<string>, target: string)
  {
    forall i :: 0 <= i < |urls| ==>
      host.urlToPostId(urls[i]) != 0 && host.urlToPostId(urls[i]) in store &&
      store[host.urlToPostId(urls[i])] == target
  }

  lemma ConsReports(rest: seq<Notice>, urls: seq<string>, result: UrlResult)
    requires urls != [] && ReportsAll(rest, urls[1..], result)
    ensures ReportsAll([Report(urls[0], result)] + rest, urls, result)
  {
    var all := [Report(urls[0], result)] + rest;
    forall i | 1 <= i < |urls|
      ensures all[i] == Report(urls[i], result)
    {
      assert all[i] == rest[i - 1] && urls[i] == urls[1..][i - 1];
    }
  }

  lemma AllUpdatedTail(n: Notice, rest: seq<Notice>)
    requires AllUpdated([n] + rest)
    ensures n.Report? && n.result == Updated && AllUpdated(rest)
  {
    assert ([n] + rest)[0] == n;
    forall i | 0 <= i < |rest|
      ensures rest[i].Report? && rest[i].result == Updated
    {
      assert rest[i] == ([n] + rest)[i + 1];
    }
  }

  lemma AllAtTargetTail(host: Host, store: Store, urls: seq<string>, target: string)
    requires urls != [] && AllAtTarget(host, store, urls, target)
    ensures AllAtTarget(host, store, urls[1..], target)
  {
    forall i | 0 <= i < |urls[1..]|
      ensures host.urlToPostId(urls[1..][i]) != 0 && host.urlToPostId(urls[1..][i]) in store &&
        store[host.urlToPostId(urls[1..][i])] == target
    {
      assert urls[1..][i] == urls[i + 1];
    }
  }

  lemma AllAtTargetCons(host: Host, store: Store, urls: seq<string>, target: string)
    requires urls != [] && AllAtTarget(host, store, urls[1..], target)
    requires var id := host.urlToPostId(urls[0]); id != 0 && id in store && store[id] == target
    ensures AllAtTarget(host, store, urls, target)
  {
    forall i | 1 <= i < |urls|
      ensures host.urlToPostId(urls[i]) != 0 && host.urlToPostId(urls[i]) in store &&
        store[host.urlToPostId(urls[i])] == target
    {
      assert urls[i] == urls[1..][i - 1];
    }
  }

  /** A post already in the new status stays in it through a run whose every
      outcome is a confirmed update. */
  lemma {:induction false} UpdatedRunKeepsTarget(host: Host, store: Store, urls: seq<string>, expected: string, target: string, id: PostId)
    requires id in store && store[id] == target
    requires AllUpdated(ProcessUrls(host, store, urls, expected, target).notices)
    ensures var r := ProcessUrls(host, store, urls, expected, target);
      id in r.store && r.store[id] == target
    decreases |urls|
  {
    if urls != [] {
      var s := ProcessUrl(host, store, urls[0], expected, target);
      assert ChangesOnlyOwnPost(host, store, urls[0], s);
      assert ReportsTruly(host, store, urls[0], expected, target, s);
      if !s.notice.result.IsFatal() {
        var rest := ProcessUrls(host, s.store, urls[1..], expected, target);
        AllUpdatedTail(s.notice, rest.notices);
        UpdatedRunKeepsTarget(host, s.store, urls[1..], expected, target, id);
      }
    }
  }

  /** When every URL of a batch reports a confirmed update, every post the
      URLs resolve to ends in the new status. */
  lemma {:induction false} SuccessfulBatchReachesTarget(host: Host, store: Store, urls: seq<string>, expected: string, target: string)
    requires var r := ProcessUrls(host, store, urls, expected, target);
      |r.notices| == |urls| && AllUpdated(r.notices)
    ensures AllAtTarget(host, ProcessUrls(host, store, urls, expected, target).store, urls, target)
    decreases |urls|
  {
    if urls != [] {
      var s := ProcessUrl(host, store, urls[0], expected, target);
      var id := host.urlToPostId(urls[0]);
      var r := ProcessUrls(host, store, urls, expected, target);
      assert r.notices[0] == s.notice;
      assert s.notice.result == Updated;
      assert ReportsTruly(host, store, urls[0], expected, target, s);
      var rest := ProcessUrls(host, s.store, urls[1..], expected, target);
      assert r.notices == [s.notice] + rest.notices && r.store == rest.store;
      AllUpdatedTail(s.notice, rest.notices);
      SuccessfulBatchReachesTarget(host, s.store, urls[1..], expected, target);
      UpdatedRunKeepsTarget(host, s.store, urls[1..], expected, target, id);
      AllAtTargetCons(host, rest.store, urls, target);
    }
  }

  /** A URL whose post is in the expected status and whose write stores the
      new status is reported as updated, and only its post changes. */
  lemma MatchingStep(host: Host, store: Store, url: string, expected: string, target: string)
    requires var id := host.urlToPostId(url);
      id != 0 && id in store && store[id] == expected && host.wpUpdatePost(id, target) == Stored(target)
    ensures var s := ProcessUrl(host, store, url, expected, target);
      s.notice == Report(url, Updated) && s.store == store[host.urlToPostId(url) := target]
  {
    var id := host.urlToPostId(url);
    assert UpdatePostStatus(host, store, id, target) == Some(store[id := target]);
  }

  /** When every URL resolves to its own post, every post loads in the
      expected status, and WordPress stores the new status as asked, each
      URL reports a confirmed update, in list order. */
  lemma {:induction false} MatchingBatchAllUpdated(host: Host, store: Store, urls: seq<string>, expected: string, target: string)
    requires forall i :: 0 <= i < |urls| ==>
      host.urlToPostId(urls[i]) != 0 && host.urlToPostId(urls[i]) in store &&
      store[host.urlToPostId(urls[i])] == expected &&
      host.wpUpdatePost(host.urlToPostId(urls[i]), target) == Stored(target)
    requires forall i, j :: 0 <= i < j < |urls| ==> host.urlToPostId(urls[i]) != host.urlToPostId(urls[j])
    ensures ReportsAll(ProcessUrls(host, store, urls, expected, target).notices, urls, Updated)
    decreases |urls|
  {
    if urls != [] {
      var id := host.urlToPostId(urls[0]);
      var s := ProcessUrl(host, store, urls[0], expected, target);
      MatchingStep(host, store, urls[0], expected, target);
      var tail := urls[1..];
      forall i | 0 <= i < |tail|
        ensures host.urlToPostId(tail[i]) != 0 && host.urlToPostId(tail[i]) in s.store &&
          s.store[host.urlToPostId(tail[i])] == expected &&
          host.wpUpdatePost(host.urlToPostId(tail[i]), target) == Stored(target)
      {
        assert tail[i] == urls[i + 1];
      }
      forall i, j | 0 <= i < j < |tail|
        ensures host.urlToPostId(tail[i]) != host.urlToPostId(tail[j])
      {
        assert tail[i] == urls[i + 1] && tail[j] == urls[j + 1];
      }
      MatchingBatchAllUpdated(host, s.store, tail, expected, target);
      var rest := ProcessUrls(host, s.store, tail, expected, target);
      assert ProcessUrls(host, store, urls, expected, target).notices == [s.notice] + rest.notices;
      ConsReports(rest.notices, urls, Updated);
    }
  }

  // ---------------------------------------------------------------------
  // Running a batch again
  // ---------------------------------------------------------------------

  /** A URL whose post already shows the new status, when that differs from
      the expected one, reports a mismatch with it and writes nothing. */
  lemma AtTargetStep(host: Host, store: Store, url: string, expected: string, target: string)
    requires expected != target
    requires var id := host.urlToPostId(url); id != 0 && id in store && store[id] == target
    ensures var s := ProcessUrl(host, store, url, expected, target);
      s.notice == Report(url, Mismatch(target)) && s.store == store && WrittenIds(s.calls) == {}
  {
    var s := ProcessUrl(host, store, url, expected, target);
    assert WritesOnlyExpected(host, store, url, expected, s.calls);
  }

  /** A run over URLs whose posts all show the new status, when that differs
      from the expected one, reports a mismatch with the new status for each
      URL, writes nothing and changes nothing. */
  lemma {:induction false} AtTargetRunMismatches(host: Host, store: Store, urls: seq<string>, expected: string, target: string)
    requires expected != target
    requires AllAtTarget(host, store, urls, target)
    ensures var r := ProcessUrls(host, store, urls, expected, target);
      ReportsAll(r.notices, urls, Mismatch(target)) && r.store == store && WrittenIds(r.calls) == {}
    decreases |urls|
  {
    if urls != [] {
      var s := ProcessUrl(host, store, urls[0], expected, target);
      AtTargetStep(host, store, urls[0], expected, target);
      AllAtTargetTail(host, store, urls, target);
      AtTargetRunMismatches(host, store, urls[1..], expected, target);
      var rest := ProcessUrls(host, store, urls[1..], expected, target);
      var r := ProcessUrls(host, store, urls, expected, target);
      assert r == Batch([s.notice] + rest.notices, rest.store, s.calls + rest.calls);
      WrittenIdsAppend(s.calls, rest.calls);
      ConsReports(rest.notices, urls, Mismatch(target));
    }
  }

  /** Running a fully successful batch a second time, with an expected status
      different from the new one, reports a mismatch for every URL and
      leaves the store as the first run left it. */
  lemma RerunReportsMismatch(host: Host, store: Store, urls: seq<string>, expected: string, target: string)
    requires expected != target
    requires var r := ProcessUrls(host, store, urls, expected, target);
      |r.notices| == |urls| && AllUpdated(r.notices)
    ensures var first := ProcessUrls(host, store, urls, expected, target);
      var second := ProcessUrls(host, first.store, urls, expected, target);
      ReportsAll(second.notices, urls, Mismatch(target)) && second.store == first.store &&
      WrittenIds(second.calls) == {}
  {
    var first := ProcessUrls(host, store, urls, expected, target);
    SuccessfulBatchReachesTarget(host, store, urls, expected, target);
    AtTargetRunMismatches(host, first.store, urls, expected, target);
  }

  // ---------------------------------------------------------------------
  // A worked example
  // ---------------------------------------------------------------------

  /** The line feed ending a text whose last line is unpadded is trimmed
      away, and nothing else is. */
  lemma TrimFinalLineFeed(text: string)
    requires text != [] && !IsTrimmable(text[0]) && !IsTrimmable(text[|text| - 1])
    ensures Trim(text + "\n") == text
  {
    var s := text + "\n";
    assert s[0] == text[0] && s[|s| - 1] == '\n' && s[|s| - 2] == text[|text| - 1];
    assert FirstKept(s, 0) == 0;
    assert KeptEnd(s, 0, |s| - 1) == |s| - 1;
    assert KeptEnd(s, 0, |s|) == |s| - 1;
    assert s[0..|s| - 1] == text;
  }

  /** Two unpadded lines, each followed by a line feed, parse into the two
      lines: the final line feed is trimmed away before the text is split. */
  lemma TwoLineTextParses(a: string, b: string)
    requires '\n' !in a && '\n' !in b
    requires a != [] && !IsTrimmable(a[0]) && !IsTrimmable(a[|a| - 1])
    requires b != [] && !IsTrimmable(b[0]) && !IsTrimmable(b[|b| - 1])
    ensures Trim(a + "\n" + b + "\n") == a + "\n" + b
    ensures ParseUrls(a + "\n" + b) == [a, b]
  {
    var text := a + "\n" + b;
    assert text[0] == a[0] && text[|text| - 1] == b[|b| - 1];
    TrimFinalLineFeed(text);
    TwoLinesExplode(a, b);
    TrimUnpadded(a);
    TrimUnpadded(b);
    ParseTwoLines(text, a, b);
  }

  /** A text that splits into two lines parses into the two trimmed lines. */
  lemma ParseTwoLines(text: string, a: string, b: string)
    requires Explode(text) == [a, b]
    ensures ParseUrls(text) == [Trim(a), Trim(b)]
  {
    var p := ParseUrls(text);
    assert |p| == 2;
    assert p[0] == Trim(a) && p[1] == Trim(b);
  }

  /** Two lines joined by a line feed split back into the two lines. */
  lemma TwoLinesExplode(a: string, b: string)
    requires '\n' !in a && '\n' !in b
    ensures Explode(a + "\n" + b) == [a, b]
  {
    assert Implode([a, b]) == a + "\n" + b by {
      assert [a, b][1..] == [b];
    }
    ExplodeImplode([a, b]);
  }

  /** The site of the worked example: the two URLs are valid and name posts
      1 and 2, and WordPress stores every status as asked. */
  function ExampleHost(a: string, b: string): Host
  {
    Host(
      u => u == a || u == b,
      u => if u == a then 1 else if u == b then 2 else 0,
      s => s,
      (id, s) => Stored(s))
  }

  /** The two URLs of the worked example are single unpadded lines. */
  lemma ExampleUrlsUnpadded(a: string, b: string)
    requires a == "http://site/a" && b == "http://site/b"
    ensures '\n' !in a && '\n' !in b && a != b
    ensures a != [] && !IsTrimmable(a[0]) && !IsTrimmable(a[|a| - 1])
    ensures b != [] && !IsTrimmable(b[0]) && !IsTrimmable(b[|b| - 1])
  {
    assert a[12] != b[12];
  }

  /** A form naming two unpadded lines is admitted with those two URLs. */
  lemma ExampleAdmitted(a: string, b: string)
    requires '\n' !in a && '\n' !in b
    requires a != [] && !IsTrimmable(a[0]) && !IsTrimmable(a[|a| - 1])
    requires b != [] && !IsTrimmable(b[0]) && !IsTrimmable(b[|b| - 1])
    ensures Admit(ExampleHost(a, b), Form(true, Some(a + "\n" + b + "\n"), Some("draft"), Some("publish")))
      == Proceed([a, b], "draft", "publish")
  {
    var host := ExampleHost(a, b);
    var form := Form(true, Some(a + "\n" + b + "\n"), Some("draft"), Some("publish"));
    TwoLineTextParses(a, b);
    var text := UrlText(form);
    assert text == a + "\n" + b && |text| > 1;
    assert ParseUrls(text) == [a, b];
    assert StatusField(host, form.expectedStatus) == "draft";
    assert StatusField(host, form.newStatus) == "publish";
    assert FirstInvalid(host.isValidUrl, [a, b]) == None by {
      assert host.isValidUrl(a) && host.isValidUrl(b);
    }
  }

  /** In the example, the draft behind the first URL is published and the
      second URL, already published, reports the mismatch. */
  lemma ExampleSteps(a: string, b: string)
    requires a != b
    ensures var host := ExampleHost(a, b);
      var published: Store := map[1 := "publish", 2 := "publish"];
      var first := ProcessUrl(host, map[1 := "draft", 2 := "publish"], a, "draft", "publish");
      var second := ProcessUrl(host, published, b, "draft", "publish");
      first.notice == Report(a, Updated) && first.store == published &&
      second.notice == Report(b, Mismatch("publish")) && second.store == published
  {
    var host := ExampleHost(a, b);
    var store: Store := map[1 := "draft", 2 := "publish"];
    var published: Store := map[1 := "publish", 2 := "publish"];
    assert host.urlToPostId(a) == 1 && host.urlToPostId(b) == 2;
    assert host.wpUpdatePost(1, "publish") == Stored("publish");
    assert store[1 := "publish"] == published;
    assert UpdatePostStatus(host, store, 1, "publish") == Some(published);
  }

  /** Two URLs, the first naming a draft and the second a published post,
      moved from "draft" to "publish": the first is updated, the second
      reports a mismatch with "publish", and both posts end up published. */
  lemma TwoUrlExample(a: string, b: string)
    requires a == "http://site/a" && b == "http://site/b"
    ensures
      var form := Form(true, Some(a + "\n" + b + "\n"), Some("draft"), Some("publish"));
      var r := HandleSubmission(ExampleHost(a, b), map[1 := "draft", 2 := "publish"], form);
      r.notices == [Report(a, Updated), Report(b, Mismatch("publish"))] &&
      r.store == map[1 := "publish", 2 := "publish"]
  {
    var host := ExampleHost(a, b);
    var store: Store := map[1 := "draft", 2 := "publish"];
    var form := Form(true, Some(a + "\n" + b + "\n"), Some("draft"), Some("publish"));
    ExampleUrlsUnpadded(a, b);
    ExampleAdmitted(a, b);
    ExampleRun(a, b);
    assert HandleSubmission(host, store, form) == ProcessUrls(host, store, [a, b], "draft", "publish");
  }

  /** The processing loop of the example: the first URL's draft is published,
      then the second URL reports that its post is already published. */
  lemma ExampleRun(a: string, b: string)
    requires a != b
    ensures var r := ProcessUrls(ExampleHost(a, b), map[1 := "draft", 2 := "publish"], [a, b], "draft", "publish");
      r.notices == [Report(a, Updated), Report(b, Mismatch("publish"))] &&
      r.store == map[1 := "publish", 2 := "publish"]
  {
    var host := ExampleHost(a, b);
    var store: Store := map[1 := "draft", 2 := "publish"];
    ExampleSteps(a, b);
    ExampleSecondUrl(a, b);
    UnfoldRun(host, store, [a, b], 0, "draft", "publish");
    assert [a, b][0..] == [a, b] && [a, b][1..] == [b];
  }

  /** The run over the second URL alone, once the first post is published. */
  lemma ExampleSecondUrl(a: string, b: string)
    requires a != b
    ensures var r := ProcessUrls(ExampleHost(a, b), map[1 := "publish", 2 := "publish"], [b], "draft", "publish");
      r.notices == [Report(b, Mismatch("publish"))] && r.store == map[1 := "publish", 2 := "publish"]
  {
    var host := ExampleHost(a, b);
    var published: Store := map[1 := "publish", 2 := "publish"];
    ExampleSteps(a, b);
    assert ProcessUrls(host, published, [], "draft", "publish") == Batch([], published, []);
    UnfoldRun(host, published, [b], 0, "draft", "publish");
    assert [b][0..] == [b] && [b][1..] == [];
  }
}
