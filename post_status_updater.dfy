/**
 * The guarded bulk status transition of the Post Status Updater plugin
 * (psu_process_form): a gate on the submitted form, an all-or-nothing URL
 * validation pass, then one pass over the URLs that moves every post found
 * in the expected status to the new status, skipping posts it cannot use and
 * halting the whole batch on the first failed or unconfirmed write.
 *
 * The WordPress functions the handler calls are the fields of a Host value;
 * the posts' statuses live in a PostStore object.  The behaviour is first
 * given as functions (HandleSubmission, ProcessUrls, ProcessUrl), and the
 * imperative handler PostStore.ProcessForm is proved to do exactly that.
 */
module PostStatusUpdater {
  import opened PhpStrings

  datatype Option<T> = None | Some(value: T)

  /** A post ID as url_to_postid() returns it; 0 means that no post matched. */
  type PostId = nat

  /** The post_status of every post get_post() can load, by post ID. */
  type Store = map<PostId, string>

  /** What wp_update_post() does with a status change: it reports failure (0
      or a WP_Error) and stores nothing, or it stores a status, which hooks
      and WordPress's own rules may make differ from the one asked for. */
  datatype WriteResult = Rejected | Stored(status: string)

  /** The WordPress functions the handler calls, as the model sees them. */
  datatype Host = Host(
    isValidUrl: string -> bool,              // filter_var($url, FILTER_VALIDATE_URL) is truthy
    urlToPostId: string -> PostId,           // url_to_postid($url)
    sanitizeTextField: string -> string,     // sanitize_text_field($s)
    wpUpdatePost: (PostId, string) -> WriteResult)  // wp_update_post(['ID' => id, 'post_status' => s])

  /** The submitted form.  A field that was not posted is None; nonceVerified
      stands for "psu_nonce was posted and wp_verify_nonce() accepted it". */
  datatype Form = Form(
    nonceVerified: bool,
    urls: Option<string>,
    expectedStatus: Option<string>,
    newStatus: Option<string>)

  /** What happened to one URL of the list. */
  datatype UrlResult =
    | NotFound                 // url_to_postid() gave 0
    | RetrieveFailed           // get_post() gave nothing
    | Mismatch(actual: string) // the post's status is not the expected one
    | UpdateFailed             // wp_update_post() reported failure
    | VerifyFailed             // the re-read status is not the new status
    | Updated                  // status changed and confirmed
  {
    /** The outcomes after which the handler stops the whole batch. */
    predicate IsFatal() {
      UpdateFailed? || VerifyFailed?
    }
  }

  /** One message the handler emits, in emission order. */
  datatype Notice =
    | SecurityCheckFailed
    | FieldsRequired
    | InvalidUrl(url: string)
    | Report(url: string, result: UrlResult)

  /** One call the handler makes into WordPress's content store, recorded with
      what a read observed. */
  datatype Call =
    | Resolve(url: string)                    // url_to_postid(url)
    | Fetch(id: PostId, seen: Option<string>) // get_post(id), and the status it showed
    | Write(id: PostId, status: string)       // wp_update_post(id, status)

  /** The effect of handling one URL. */
  datatype Step = Step(notice: Notice, store: Store, calls: seq<Call>)

  /** The effect of handling a submission: the notices in order, the final
      store and every call made. */
  datatype Batch = Batch(notices: seq<Notice>, store: Store, calls: seq<Call>)

  /** The verdict of the checks made before any post is touched. */
  datatype Gate =
    | Proceed(urls: seq<string>, expected: string, target: string)
    | Refuse(notice: Notice)

  // ---------------------------------------------------------------------
  // Calls and what they touched
  // ---------------------------------------------------------------------

  /** The URLs looked up, in the order of the lookups. */
  function Resolved(calls: seq<Call>): seq<string>
  {
    if calls == [] then []
    else (if calls[0].Resolve? then [calls[0].url] else []) + Resolved(calls[1..])
  }

  /** The posts written to. */
  function WrittenIds(calls: seq<Call>): set<PostId>
  {
    if calls == [] then {}
    else (if calls[0].Write? then {calls[0].id} else {}) + WrittenIds(calls[1..])
  }

  /** Every write sets the new status and comes right after a read that saw
      the same post in the expected status. */
  predicate GuardedWrites(calls: seq<Call>, expected: string, target: string)
  {
    forall k :: 0 <= k < |calls| && calls[k].Write? ==>
      0 < k && calls[k - 1] == Fetch(calls[k].id, Some(expected)) && calls[k].status == target
  }

  lemma {:induction false} ResolvedAppend(a: seq<Call>, b: seq<Call>)
    ensures Resolved(a + b) == Resolved(a) + Resolved(b)
    decreases |a|
  {
    if a != [] {
      assert (a + b)[1..] == a[1..] + b;
      ResolvedAppend(a[1..], b);
    } else {
      assert a + b == b;
    }
  }

  lemma {:induction false} WrittenIdsAppend(a: seq<Call>, b: seq<Call>)
    ensures WrittenIds(a + b) == WrittenIds(a) + WrittenIds(b)
    decreases |a|
  {
    if a != [] {
      assert (a + b)[1..] == a[1..] + b;
      WrittenIdsAppend(a[1..], b);
    } else {
      assert a + b == b;
    }
  }

  lemma GuardedWritesAppend(a: seq<Call>, b: seq<Call>, expected: string, target: string)
    requires GuardedWrites(a, expected, target) && GuardedWrites(b, expected, target)
    ensures GuardedWrites(a + b, expected, target)
  {
    forall k | 0 <= k < |a + b| && (a + b)[k].Write?
      ensures 0 < k && (a + b)[k - 1] == Fetch((a + b)[k].id, Some(expected)) && (a + b)[k].status == target
    {
      if k >= |a| {
        assert (a + b)[k] == b[k - |a|];
        assert (a + b)[k - 1] == b[k - |a| - 1];
      }
    }
  }

  lemma AppendAssociative<T>(a: seq<T>, b: seq<T>, c: seq<T>)
    ensures a + b + c == a + (b + c)
  {
  }

  /** A call list read from its first call. */
  lemma ConsCall(x: Call, rest: seq<Call>)
    ensures Resolved([x] + rest) == (if x.Resolve? then [x.url] else []) + Resolved(rest)
    ensures WrittenIds([x] + rest) == (if x.Write? then {x.id} else {}) + WrittenIds(rest)
  {
    assert ([x] + rest)[1..] == rest;
  }

  /** The calls made for one URL, however far the handler gets with it: one
      lookup, then reads and at most one write of the URL's own post. */
  lemma LookupCalls(url: string)
    ensures Resolved([Resolve(url)]) == [url] && WrittenIds([Resolve(url)]) == {}
  {
    ConsCall(Resolve(url), []);
    assert [Resolve(url)] + [] == [Resolve(url)];
  }

  lemma ReadCalls(url: string, id: PostId, first: Option<string>)
    ensures var c := [Resolve(url), Fetch(id, first)];
      Resolved(c) == [url] && WrittenIds(c) == {}
  {
    var read := [Fetch(id, first)];
    ConsCall(Fetch(id, first), []);
    assert [Fetch(id, first)] + [] == read;
    ConsCall(Resolve(url), read);
    assert [Resolve(url)] + read == [Resolve(url), Fetch(id, first)];
  }

  lemma WriteCalls(url: string, id: PostId, first: Option<string>, target: string)
    ensures var c := [Resolve(url), Fetch(id, first), Write(id, target)];
      Resolved(c) == [url] && WrittenIds(c) == {id}
  {
    var write := [Write(id, target)];
    ConsCall(Write(id, target), []);
    assert [Write(id, target)] + [] == write;
    var read := [Fetch(id, first)] + write;
    ConsCall(Fetch(id, first), write);
    ConsCall(Resolve(url), read);
    assert [Resolve(url)] + read == [Resolve(url), Fetch(id, first), Write(id, target)];
  }

  lemma ConfirmCalls(url: string, id: PostId, first: Option<string>, target: string, second: Option<string>)
    ensures var c := [Resolve(url), Fetch(id, first), Write(id, target), Fetch(id, second)];
      Resolved(c) == [url] && WrittenIds(c) == {id}
  {
    var reread := [Fetch(id, second)];
    ConsCall(Fetch(id, second), []);
    assert [Fetch(id, second)] + [] == reread;
    var write := [Write(id, target)] + reread;
    ConsCall(Write(id, target), reread);
    var read := [Fetch(id, first)] + write;
    ConsCall(Fetch(id, first), write);
    ConsCall(Resolve(url), read);
    assert [Resolve(url)] + read == [Resolve(url), Fetch(id, first), Write(id, target), Fetch(id, second)];
  }

  // ---------------------------------------------------------------------
  // The content store
  // ---------------------------------------------------------------------

  /** get_post(id), reduced to the status of the post it loads. */
  function Lookup(store: Store, id: PostId): (r: Option<string>)
    ensures r.Some? <==> id in store
    ensures r.Some? ==> r.value == store[id]
  {
    if id in store then Some(store[id]) else None
  }

  /** The store after wp_update_post(id, target), or None when it reports
      failure.  Only the named post can change, and an unknown ID is refused. */
  function UpdatePostStatus(host: Host, store: Store, id: PostId, target: string): (r: Option<Store>)
    ensures r.Some? <==> id in store && host.wpUpdatePost(id, target).Stored?
    ensures r.Some? ==> r.value.Keys == store.Keys
    ensures r.Some? ==> id in r.value && r.value[id] == host.wpUpdatePost(id, target).status
    ensures r.Some? ==> forall k :: k in store && k != id ==> r.value[k] == store[k]
  {
    if id !in store then None
    else match host.wpUpdatePost(id, target)
      case Rejected => None
      case Stored(s) => Some(store[id := s])
  }

  // ---------------------------------------------------------------------
  // The form gate
  // ---------------------------------------------------------------------

  /** The URL text as the handler uses it: trimmed, or '' when not posted. */
  function UrlText(form: Form): (r: string)
    ensures form.urls.None? ==> r == ""
    ensures form.urls.Some? ==> r == Trim(form.urls.value)
    ensures r != [] ==> !IsTrimmable(r[0]) && !IsTrimmable(r[|r| - 1])
  {
    match form.urls
    case Some(text) => TrimEnds(text); Trim(text)
    case None => ""
  }

  /** A status field as the handler uses it: sanitized, or '' when not posted. */
  function StatusField(host: Host, field: Option<string>): (r: string)
    ensures field.None? ==> PhpEmpty(r)
    ensures field.Some? ==> r == host.sanitizeTextField(field.value)
  {
    match field
    case Some(s) => host.sanitizeTextField(s)
    case None => ""
  }

  /** The URL list: the text split at line feeds, each piece trimmed. */
  function ParseUrls(text: string): (r: seq<string>)
    ensures |r| == |Explode(text)|
    ensures forall i :: 0 <= i < |r| ==> r[i] == Trim(Explode(text)[i])
  {
    var lines := Explode(text);
    seq(|lines|, i requires 0 <= i < |lines| => Trim(lines[i]))
  }

  /** The position of the first URL the validator rejects, if any. */
  function FirstInvalid(isValid: string -> bool, urls: seq<string>): (r: Option<nat>)
    ensures r.None? <==> forall j :: 0 <= j < |urls| ==> isValid(urls[j])
    ensures r.Some? ==>
      r.value < |urls| && !isValid(urls[r.value]) && forall j :: 0 <= j < r.value ==> isValid(urls[j])
  {
    if urls == [] then None
    else if !isValid(urls[0]) then Some(0)
    else match FirstInvalid(isValid, urls[1..])
      case None => None
      case Some(k) => Some(k + 1)
  }

  /** The checks made before any post is looked up: the nonce, then that all
      three fields are non-empty in PHP's sense, then that every URL of the
      list is valid.  The batch proceeds exactly when all of them pass. */
  function Admit(host: Host, form: Form): (g: Gate)
    ensures var text := UrlText(form);
      var expected := StatusField(host, form.expectedStatus);
      var target := StatusField(host, form.newStatus);
      var urls := ParseUrls(text);
      (g.Proceed? <==>
        form.nonceVerified && !PhpEmpty(text) && !PhpEmpty(expected) && !PhpEmpty(target) &&
        forall i :: 0 <= i < |urls| ==> host.isValidUrl(urls[i])) &&
      (g.Proceed? ==> g.urls == urls && g.expected == expected && g.target == target)
    ensures !form.nonceVerified ==> g == Refuse(SecurityCheckFailed)
    ensures form.nonceVerified ==>
      (g == Refuse(FieldsRequired) <==>
        PhpEmpty(UrlText(form)) || PhpEmpty(StatusField(host, form.expectedStatus)) || PhpEmpty(StatusField(host, form.newStatus)))
    ensures form.nonceVerified && g.Refuse? && g.notice != FieldsRequired ==>
      g.notice.InvalidUrl? &&
      var urls := ParseUrls(UrlText(form));
      exists i :: 0 <= i < |urls| && urls[i] == g.notice.url && !host.isValidUrl(urls[i]) &&
        forall j :: 0 <= j < i ==> host.isValidUrl(urls[j])
  {
    var text := UrlText(form);
    var expected := StatusField(host, form.expectedStatus);
    var target := StatusField(host, form.newStatus);
    if !form.nonceVerified then Refuse(SecurityCheckFailed)
    else if PhpEmpty(text) || PhpEmpty(expected) || PhpEmpty(target) then Refuse(FieldsRequired)
    else
      var urls := ParseUrls(text);
      match FirstInvalid(host.isValidUrl, urls)
      case Some(i) => Refuse(InvalidUrl(urls[i]))
      case None => Proceed(urls, expected, target)
  }

  // ---------------------------------------------------------------------
  // The per-URL transition and the batch
  // ---------------------------------------------------------------------

  /** A URL's post is written exactly when it resolves to a post that loads
      and shows the expected status, and no other post is written. */
  predicate WritesOnlyExpected(host: Host, store: Store, url: string, expected: string, calls: seq<Call>)
  {
    var id := host.urlToPostId(url);
    WrittenIds(calls) == (if id != 0 && id in store && store[id] == expected then {id} else {})
  }

  /** Only the URL's own post may change, and nothing changes without a write. */
  predicate ChangesOnlyOwnPost(host: Host, store: Store, url: string, s: Step)
  {
    var id := host.urlToPostId(url);
    && s.store.Keys == store.Keys
    && (forall k :: k in store && k != id ==> s.store[k] == store[k])
    && (WrittenIds(s.calls) == {} ==> s.store == store)
  }

  /** A mismatch reports the status the post actually had, and an update is
      reported only when the post now has the new status. */
  predicate ReportsTruly(host: Host, store: Store, url: string, expected: string, target: string, s: Step)
    requires s.notice.Report?
  {
    var id := host.urlToPostId(url);
    && (s.notice.result.Mismatch? ==> id in store && s.notice.result.actual == store[id] != expected)
    && (s.notice.result.Updated? ==> id != 0 && id in s.store && s.store[id] == target)
  }

  /** Everything ProcessUrl promises about the step it takes for url. */
  predicate StepSound(host: Host, store: Store, url: string, expected: string, target: string, s: Step)
  {
    && s.notice.Report? && s.notice.url == url
    && Resolved(s.calls) == [url]
    && WritesOnlyExpected(host, store, url, expected, s.calls)
    && GuardedWrites(s.calls, expected, target)
    && ChangesOnlyOwnPost(host, store, url, s)
    && ReportsTruly(host, store, url, expected, target, s)
  }

  /** One iteration of the processing loop: resolve the URL, load the post,
      compare its status with the expected one, write the new status, and
      re-read it to confirm the change. */
  function ProcessUrl(host: Host, store: Store, url: string, expected: string, target: string): (s: Step)
    ensures s.notice.Report? && s.notice.url == url
    ensures Resolved(s.calls) == [url]
    ensures WritesOnlyExpected(host, store, url, expected, s.calls)
    ensures GuardedWrites(s.calls, expected, target)
    ensures ChangesOnlyOwnPost(host, store, url, s)
    ensures ReportsTruly(host, store, url, expected, target, s)
  {
    var id := host.urlToPostId(url);
    if id == 0 then
      NotFoundStep(host, store, url, expected, target);
      Step(Report(url, NotFound), store, [Resolve(url)])
    else if id !in store then
      RetrieveFailedStep(host, store, url, expected, target);
      Step(Report(url, RetrieveFailed), store, [Resolve(url), Fetch(id, None)])
    else if store[id] != expected then
      MismatchStep(host, store, url, expected, target);
      Step(Report(url, Mismatch(store[id])), store, [Resolve(url), Fetch(id, Some(store[id]))])
    else
      match UpdatePostStatus(host, store, id, target)
      case None =>
        UpdateFailedStep(host, store, url, expected, target);
        Step(Report(url, UpdateFailed), store, [Resolve(url), Fetch(id, Some(store[id])), Write(id, target)])
      case Some(after) =>
        var seen := Lookup(after, id);
        var calls := [Resolve(url), Fetch(id, Some(store[id])), Write(id, target), Fetch(id, seen)];
        var result := if seen != Some(target) then VerifyFailed else Updated;
        WrittenStep(host, store, url, expected, target, after, result);
        Step(Report(url, result), after, calls)
  }

  /** Which outcome ProcessUrl reports, by cause: a URL that names no post, a
      post that does not load, a post in another status, a write that is
      rejected, a write that stores another status, and a confirmed write.
      The outcomes that stop the batch are exactly the writes that did not
      leave the post in the new status. */
  lemma StepOutcome(host: Host, store: Store, url: string, expected: string, target: string)
    ensures var id := host.urlToPostId(url);
      var r := ProcessUrl(host, store, url, expected, target).notice.result;
      var matching := id != 0 && id in store && store[id] == expected;
      && (r == NotFound <==> id == 0)
      && (r == RetrieveFailed <==> id != 0 && id !in store)
      && (r.Mismatch? <==> id != 0 && id in store && store[id] != expected)
      && (r == UpdateFailed <==> matching && host.wpUpdatePost(id, target).Rejected?)
      && (r == VerifyFailed <==> matching && host.wpUpdatePost(id, target).Stored? && host.wpUpdatePost(id, target).status != target)
      && (r == Updated <==> matching && host.wpUpdatePost(id, target) == Stored(target))
      && (r.IsFatal() <==> matching && host.wpUpdatePost(id, target) != Stored(target))
  {
  }

  /** The branch for a URL that names no post. */
  lemma NotFoundStep(host: Host, store: Store, url: string, expected: string, target: string)
    requires host.urlToPostId(url) == 0
    ensures StepSound(host, store, url, expected, target, Step(Report(url, NotFound), store, [Resolve(url)]))
  {
    LookupCalls(url);
  }

  /** The branch for a post ID that get_post() cannot load. */
  lemma RetrieveFailedStep(host: Host, store: Store, url: string, expected: string, target: string)
    requires host.urlToPostId(url) != 0 && host.urlToPostId(url) !in store
    ensures var id := host.urlToPostId(url);
      StepSound(host, store, url, expected, target,
        Step(Report(url, RetrieveFailed), store, [Resolve(url), Fetch(id, None)]))
  {
    ReadCalls(url, host.urlToPostId(url), None);
  }

  /** The branch for a post whose status is not the expected one. */
  lemma MismatchStep(host: Host, store: Store, url: string, expected: string, target: string)
    requires var id := host.urlToPostId(url); id != 0 && id in store && store[id] != expected
    ensures var id := host.urlToPostId(url);
      StepSound(host, store, url, expected, target,
        Step(Report(url, Mismatch(store[id])), store, [Resolve(url), Fetch(id, Some(store[id]))]))
  {
    var id := host.urlToPostId(url);
    ReadCalls(url, id, Some(store[id]));
  }

  /** The branch for a write that wp_update_post() reports as failed. */
  lemma UpdateFailedStep(host: Host, store: Store, url: string, expected: string, target: string)
    requires var id := host.urlToPostId(url);
      id != 0 && id in store && store[id] == expected && UpdatePostStatus(host, store, id, target).None?
    ensures var id := host.urlToPostId(url);
      StepSound(host, store, url, expected, target,
        Step(Report(url, UpdateFailed), store, [Resolve(url), Fetch(id, Some(expected)), Write(id, target)]))
  {
    var id := host.urlToPostId(url);
    var calls := [Resolve(url), Fetch(id, Some(expected)), Write(id, target)];
    WriteCalls(url, id, Some(expected), target);
    assert calls[1] == Fetch(id, Some(expected));
  }

  /** The branch for a write that went through, followed by the re-read that
      confirms or refutes it. */
  lemma WrittenStep(host: Host, store: Store, url: string, expected: string, target: string, after: Store, result: UrlResult)
    requires var id := host.urlToPostId(url);
      id != 0 && id in store && store[id] == expected && UpdatePostStatus(host, store, id, target) == Some(after)
    requires result == if Lookup(after, host.urlToPostId(url)) != Some(target) then VerifyFailed else Updated
    ensures var id := host.urlToPostId(url);
      var calls := [Resolve(url), Fetch(id, Some(expected)), Write(id, target), Fetch(id, Lookup(after, id))];
      StepSound(host, store, url, expected, target, Step(Report(url, result), after, calls))
  {
    var id := host.urlToPostId(url);
    var calls := [Resolve(url), Fetch(id, Some(expected)), Write(id, target), Fetch(id, Lookup(after, id))];
    ConfirmCalls(url, id, Some(expected), target, Lookup(after, id));
    assert calls[1] == Fetch(id, Some(expected));
  }

  /** The notices of a run over urls: one per URL, in list order; none is
      fatal but possibly the last, and there are fewer notices than URLs only
      when the last one is fatal. */
  predicate OneNoticePerUrl(notices: seq<Notice>, urls: seq<string>)
  {
    && |notices| <= |urls|
    && (forall i :: 0 <= i < |notices| ==> notices[i].Report? && notices[i].url == urls[i])
    && (forall i :: 0 <= i < |notices| - 1 ==> !notices[i].result.IsFatal())
    && (|notices| < |urls| ==> notices != [] && notices[|notices| - 1].result.IsFatal())
  }

  /** A non-fatal step followed by a run over the remaining URLs is a run
      over all of them. */
  lemma ConsStep(s: Step, rest: Batch, store: Store, urls: seq<string>)
    requires urls != [] && s.notice.Report? && s.notice.url == urls[0] && !s.notice.result.IsFatal()
    requires Resolved(s.calls) == [urls[0]] && s.store.Keys == store.Keys
    requires OneNoticePerUrl(rest.notices, urls[1..])
    requires Resolved(rest.calls) == urls[1..][..|rest.notices|] && rest.store.Keys == s.store.Keys
    ensures OneNoticePerUrl([s.notice] + rest.notices, urls)
    ensures Resolved(s.calls + rest.calls) == urls[..|rest.notices| + 1]
    ensures rest.store.Keys == store.Keys
  {
    ConsNotices(s.notice, rest.notices, urls);
    ResolvedAppend(s.calls, rest.calls);
    assert urls[..|rest.notices| + 1] == [urls[0]] + urls[1..][..|rest.notices|];
  }

  /** A fatal step ends the run after its own URL. */
  lemma FatalStep(n: Notice, urls: seq<string>)
    requires urls != [] && n.Report? && n.url == urls[0] && n.result.IsFatal()
    ensures OneNoticePerUrl([n], urls) && urls[..1] == [urls[0]]
  {
  }

  /** The notice part of ConsStep. */
  lemma ConsNotices(n: Notice, rest: seq<Notice>, urls: seq<string>)
    requires urls != [] && n.Report? && n.url == urls[0] && !n.result.IsFatal()
    requires OneNoticePerUrl(rest, urls[1..])
    ensures OneNoticePerUrl([n] + rest, urls)
  {
    var notices := [n] + rest;
    forall i | 1 <= i < |notices|
      ensures notices[i] == rest[i - 1] && urls[i] == urls[1..][i - 1]
    {
    }
    if |notices| < |urls| {
      assert |rest| < |urls[1..]|;
      assert notices[|notices| - 1] == rest[|rest| - 1];
    }
  }

  /** The processing loop over the URL list: one notice per URL in list order,
      stopping right after the first fatal outcome, having looked up exactly
      the URLs it reported on. */
  function ProcessUrls(host: Host, store: Store, urls: seq<string>, expected: string, target: string): (r: Batch)
    ensures OneNoticePerUrl(r.notices, urls)
    ensures Resolved(r.calls) == urls[..|r.notices|]
    ensures r.store.Keys == store.Keys
    decreases |urls|
  {
    if urls == [] then Batch([], store, [])
    else
      var s := ProcessUrl(host, store, urls[0], expected, target);
      if s.notice.result.IsFatal() then
        FatalStep(s.notice, urls);
        Batch([s.notice], s.store, s.calls)
      else
        var rest := ProcessUrls(host, s.store, urls[1..], expected, target);
        ConsStep(s, rest, store, urls);
        Batch([s.notice] + rest.notices, rest.store, s.calls + rest.calls)
  }

  /** The run over the URLs from position i on is the step for URL i,
      followed, unless that step was fatal, by the run from position i + 1. */
  lemma UnfoldRun(host: Host, store: Store, urls: seq<string>, i: nat, expected: string, target: string)
    requires i < |urls|
    ensures var s := ProcessUrl(host, store, urls[i], expected, target);
      var rest := ProcessUrls(host, s.store, urls[i + 1..], expected, target);
      ProcessUrls(host, store, urls[i..], expected, target) ==
        if s.notice.result.IsFatal() then Batch([s.notice], s.store, s.calls)
        else Batch([s.notice] + rest.notices, rest.store, s.calls + rest.calls)
  {
    assert urls[i..][0] == urls[i] && urls[i..][1..] == urls[i + 1..];
  }

  /** Everything psu_process_form does with one submission; it never creates
      or deletes a post. */
  function HandleSubmission(host: Host, store: Store, form: Form): (r: Batch)
    ensures r.store.Keys == store.Keys
  {
    match Admit(host, form)
    case Refuse(notice) => Batch([notice], store, [])
    case Proceed(urls, expected, target) => ProcessUrls(host, store, urls, expected, target)
  }

  // ---------------------------------------------------------------------
  // The handler
  // ---------------------------------------------------------------------

  /** The validation pass: the position of the first URL the validator
      rejects, scanning the whole list before anything else happens. */
  method FindInvalidUrl(isValid: string -> bool, urls: seq<string>) returns (found: Option<nat>)
    ensures found == FirstInvalid(isValid, urls)
  {
    var i := 0;
    while i < |urls|
      invariant 0 <= i <= |urls|
      invariant forall j :: 0 <= j < i ==> isValid(urls[j])
    {
      if !isValid(urls[i]) {
        return Some(i);
      }
      i := i + 1;
    }
    return None;
  }

  /** WordPress's content store as the handler sees it. */
  class PostStore {
    /** post_status of every post that get_post() can load. */
    var status: Store
    /** Every call made into the store, in order. */
    ghost var log: seq<Call>

    constructor (initial: Store)
      ensures status == initial && log == []
    {
      status := initial;
      log := [];
    }

    /** url_to_postid(url). */
    method UrlToPostId(host: Host, url: string) returns (id: PostId)
      modifies this`log
      ensures id == host.urlToPostId(url)
      ensures log == old(log) + [Resolve(url)]
    {
      id := host.urlToPostId(url);
      log := log + [Resolve(url)];
    }

    /** get_post(id), reduced to the loaded post's status. */
    method GetPost(id: PostId) returns (post: Option<string>)
      modifies this`log
      ensures post == Lookup(status, id)
      ensures log == old(log) + [Fetch(id, post)]
    {
      post := Lookup(status, id);
      log := log + [Fetch(id, post)];
    }

    /** wp_update_post(['ID' => id, 'post_status' => target]); ok is false
        when it reports failure, in which case nothing is stored. */
    method UpdatePost(host: Host, id: PostId, target: string) returns (ok: bool)
      modifies this
      ensures ok == UpdatePostStatus(host, old(status), id, target).Some?
      ensures status == if ok then UpdatePostStatus(host, old(status), id, target).value else old(status)
      ensures log == old(log) + [Write(id, target)]
    {
      log := log + [Write(id, target)];
      ok := false;
      if id in status {
        match host.wpUpdatePost(id, target)
        case Rejected =>
        case Stored(s) =>
          status := status[id := s];
          ok := true;
      }
    }

    /** One iteration of the processing loop of psu_process_form(): the
        notice for url, with the store and the calls as ProcessUrl says. */
    method VisitUrl(host: Host, url: string, expected: string, target: string) returns (notice: Notice)
      modifies this
      ensures var s := ProcessUrl(host, old(status), url, expected, target);
        notice == s.notice && status == s.store && log == old(log) + s.calls
    {
      var id := UrlToPostId(host, url);
      if id == 0 {
        return Report(url, NotFound);
      }

      var post := GetPost(id);
      if post.None? {
        return Report(url, RetrieveFailed);
      }
      if post.value != expected {
        return Report(url, Mismatch(post.value));
      }

      var ok := UpdatePost(host, id, target);
      if !ok {
        return Report(url, UpdateFailed);
      }

      var reread := GetPost(id);
      if reread != Some(target) {
        return Report(url, VerifyFailed);
      }
      return Report(url, Updated);
    }

    /** psu_process_form(): the notices it emits, in order.  The store ends up
        as HandleSubmission says and the calls made are exactly its calls. */
    method ProcessForm(host: Host, form: Form) returns (notices: seq<Notice>)
      modifies this
      ensures var b := HandleSubmission(host, old(status), form);
        notices == b.notices && status == b.store && log == old(log) + b.calls
    {
      if !form.nonceVerified {
        return [SecurityCheckFailed];
      }
      var text := UrlText(form);
      var expected := StatusField(host, form.expectedStatus);
      var target := StatusField(host, form.newStatus);
      if PhpEmpty(text) || PhpEmpty(expected) || PhpEmpty(target) {
        return [FieldsRequired];
      }

      var urls := ParseUrls(text);
      var bad := FindInvalidUrl(host.isValidUrl, urls);
      if bad.Some? {
        return [InvalidUrl(urls[bad.value])];
      }

      notices := ProcessUrlList(host, urls, expected, target);
    }

    /** The processing loop of psu_process_form(): visits the URLs in order
        and stops right after the first fatal outcome. */
    method ProcessUrlList(host: Host, urls: seq<string>, expected: string, target: string) returns (notices: seq<Notice>)
      modifies this
      ensures var b := ProcessUrls(host, old(status), urls, expected, target);
        notices == b.notices && status == b.store && log == old(log) + b.calls
    {
      ghost var total := ProcessUrls(host, status, urls, expected, target);
      notices := [];
      var i := 0;
      while i < |urls|
        invariant 0 <= i <= |urls|
        invariant notices + ProcessUrls(host, status, urls[i..], expected, target).notices == total.notices
        invariant ProcessUrls(host, status, urls[i..], expected, target).store == total.store
        invariant log + ProcessUrls(host, status, urls[i..], expected, target).calls == old(log) + total.calls
      {
        var url := urls[i];
        ghost var s := ProcessUrl(host, status, url, expected, target);
        ghost var rest := ProcessUrls(host, s.store, urls[i + 1..], expected, target);
        ghost var logBefore := log;
        UnfoldRun(host, status, urls, i, expected, target);
        var notice := VisitUrl(host, url, expected, target);
        AppendAssociative(notices, [notice], rest.notices);
        AppendAssociative(logBefore, s.calls, rest.calls);
        notices := notices + [notice];
        i := i + 1;
        if notice.result.IsFatal() {
          return;
        }
      }
    }
  }
}
