/** The bounded walk over every page of a directory listing.  The provider is any
    function of the call number and the cursor. */
module DirectoryScan {
  import opened Common
  import opened Text

  const DEFAULT_PAGE_LIMIT: nat := 50
  const MAX_PAGE_LIMIT: nat := 500
  const DEFAULT_SCAN_MAX_PAGES: nat := 64
  const DEFAULT_SCAN_MAX_RECORDS: nat := 25000
  const MAX_SCAN_PAGES: nat := 1024
  const MAX_SCAN_RECORDS: nat := 500000
  const MAX_CURSOR_LENGTH: nat := 4096

  type Record = string

  datatype Page = Page(answerKind: string, negative: bool, records: seq<Record>, nextCursor: string)

  datatype Answer = Resolved(page: Page) | ProviderError(code: int)

  type Provider = (nat, string) -> Answer

  datatype Request = Request(listing: bool, limit: nat, cursor: string)

  datatype Options = Options(maxPages: nat, maxRecords: nat)

  datatype Snapshot = Snapshot(answerKind: string, negative: bool, records: seq<Record>, pages: nat)

  datatype Error =
    | NotAListing | LimitTooLarge | CursorTooLong | PageBoundTooLarge | RecordBoundTooLarge
    | NonceUnavailable | ProviderFailed(code: int) | AnswerKindChanged | NegativeAfterPartial
    | TooManyRecords | RepeatedCursor | TooManyPages | NoTerminalCursor

  /** What a scan returns, and the cursors it asked the provider for, in order. */
  datatype Report = Report(result: Result<Snapshot, Error>, calls: seq<string>)

  function CheckCursor(value: string): Option<string> {
    var cursor := Trim(value);
    if ByteLength(cursor) > MAX_CURSOR_LENGTH then None else Some(cursor)
  }

  /** The bounds in force: zero selects the default, none can be removed. */
  function ScanBounds(o: Options): Result<Options, Error> {
    var maxPages := if o.maxPages == 0 then DEFAULT_SCAN_MAX_PAGES else o.maxPages;
    var maxRecords := if o.maxRecords == 0 then DEFAULT_SCAN_MAX_RECORDS else o.maxRecords;
    if maxPages > MAX_SCAN_PAGES then Err(PageBoundTooLarge)
    else if maxRecords > MAX_SCAN_RECORDS then Err(RecordBoundTooLarge)
    else Ok(Options(maxPages, maxRecords))
  }

  /** The cursor to start from, or why the request is refused without a call. */
  function CheckRequest(request: Request): Result<string, Error> {
    if !request.listing then Err(NotAListing)
    else if request.limit > MAX_PAGE_LIMIT then Err(LimitTooLarge)
    else if CheckCursor(request.cursor).None? then Err(CursorTooLong)
    else Ok(CheckCursor(request.cursor).value)
  }

  /** What page `number` adds to the records so far, or why the walk fails on it. */
  function AddPage(number: nat, soFar: Snapshot, page: Page, maxRecords: nat): Result<Snapshot, Error> {
    if number > 1 && page.answerKind != soFar.answerKind then Err(AnswerKindChanged)
    else if number > 1 && page.negative then Err(NegativeAfterPartial)
    else
      var before := if number == 1 then [] else soFar.records;
      if |before| + |page.records| > maxRecords then Err(TooManyRecords)
      else if CheckCursor(page.nextCursor).None? then Err(CursorTooLong)
      else Ok(Snapshot(page.answerKind, page.negative, before + page.records, number))
  }

  /** No page follows: the cursor is empty, or the (first) page is negative. */
  predicate LastPage(page: Page) {
    Trim(page.nextCursor) == "" || page.negative
  }

  function Walk(
    provider: Provider, nonce: nat -> bool, number: nat, cursor: string, seen: set<string>,
    soFar: Snapshot, bounds: Options): Report
    decreases bounds.maxPages + 1 - number
  {
    if number > bounds.maxPages then Report(Err(NoTerminalCursor), [])
    else if number > 1 && !nonce(number) then Report(Err(NonceUnavailable), [])
    else
      var answer := provider(number, cursor);
      if answer.ProviderError? then Report(Err(ProviderFailed(answer.code)), [cursor])
      else
        var added := AddPage(number, soFar, answer.page, bounds.maxRecords);
        var next := Trim(answer.page.nextCursor);
        if added.Err? then Report(Err(added.error), [cursor])
        else if LastPage(answer.page) then Report(Ok(added.value), [cursor])
        else if next in seen then Report(Err(RepeatedCursor), [cursor])
        else if number == bounds.maxPages then Report(Err(TooManyPages), [cursor])
        else
          var rest := Walk(provider, nonce, number + 1, next, seen + {next}, added.value, bounds);
          Report(rest.result, [cursor] + rest.calls)
  }

  const NOTHING: Snapshot := Snapshot("", false, [], 0)

  function StartSeen(cursor: string): set<string> {
    if cursor == "" then {} else {cursor}
  }

  function ScanReport(provider: Provider, nonce: nat -> bool, request: Request, options: Options): Report {
    var start, bounds := CheckRequest(request), ScanBounds(options);
    if start.Err? then Report(Err(start.error), [])
    else if bounds.Err? then Report(Err(bounds.error), [])
    else Walk(provider, nonce, 1, start.value, StartSeen(start.value), NOTHING, bounds.value)
  }

  method Scan(provider: Provider, nonce: nat -> bool, request: Request, options: Options)
    returns (result: Result<Snapshot, Error>, ghost calls: seq<string>)
    ensures result == ScanReport(provider, nonce, request, options).result
    ensures calls == ScanReport(provider, nonce, request, options).calls
  {
    calls := [];
    var start, bounds := CheckRequest(request), ScanBounds(options);
    if start.Err? {
      return Err(start.error), [];
    }
    if bounds.Err? {
      return Err(bounds.error), [];
    }
    var maxPages := bounds.value.maxPages;
    var cursor, seen, snapshot := start.value, StartSeen(start.value), NOTHING;
    ghost var whole := ScanReport(provider, nonce, request, options);
    for number := 1 to maxPages + 1
      invariant var rest := Walk(provider, nonce, number, cursor, seen, snapshot, bounds.value);
                whole == Report(rest.result, calls + rest.calls)
    {
      if number > 1 && !nonce(number) {
        return Err(NonceUnavailable), calls;
      }
      var answer := provider(number, cursor);
      ghost var asked := calls;
      calls := calls + [cursor];
      if answer.ProviderError? {
        return Err(ProviderFailed(answer.code)), calls;
      }
      var page := answer.page;
      var added := AddPage(number, snapshot, page, bounds.value.maxRecords);
      if added.Err? {
        return Err(added.error), calls;
      }
      snapshot := added.value;
      var next := Trim(page.nextCursor);
      if next == "" || page.negative {
        return Ok(snapshot), calls;
      }
      if next in seen {
        return Err(RepeatedCursor), calls;
      }
      seen := seen + {next};
      if number == maxPages {
        return Err(TooManyPages), calls;
      }
      ghost var rest := Walk(provider, nonce, number + 1, next, seen, snapshot, bounds.value);
      assert asked + ([cursor] + rest.calls) == calls + rest.calls;
      cursor := next;
    }
    return Err(NoTerminalCursor), calls;
  }

  // ------------------------------------------------------- against any provider

  function PageOf(a: Answer): Page {
    if a.Resolved? then a.page else Page("", false, [], "")
  }

  /** The records of the pages asked for, from call `number` on. */
  function RecordsOf(provider: Provider, number: nat, calls: seq<string>): seq<Record>
    decreases |calls|
  {
    if calls == [] then [] else PageOf(provider(number, calls[0])).records + RecordsOf(provider, number + 1, calls[1..])
  }

  /** Each cursor asked for is the one the page before it named. */
  predicate Names(provider: Provider, number: nat, calls: seq<string>, i: nat)
    requires 0 < i < |calls|
  {
    calls[i] != "" && calls[i] == Trim(PageOf(provider(number + i - 1, calls[i - 1])).nextCursor)
  }

  ghost predicate Followed(provider: Provider, number: nat, calls: seq<string>) {
    forall i :: 0 < i < |calls| ==> Names(provider, number, calls, i)
  }

  ghost predicate Distinct(calls: seq<string>) {
    forall i, j :: 0 <= i < j < |calls| ==> calls[i] != calls[j]
  }

  /** What a successful walk from call `number` says of its calls. */
  ghost predicate Explains(
    provider: Provider, number: nat, calls: seq<string>, before: seq<Record>, s: Snapshot, maxRecords: nat) {
    && calls != [] && s.pages == number + |calls| - 1
    && s.records == before + RecordsOf(provider, number, calls)
    && |s.records| <= maxRecords
    && var last := PageOf(provider(s.pages, calls[|calls| - 1]));
       (Trim(last.nextCursor) == "" || (s.pages == 1 && last.negative)) && (s.negative <==> s.pages == 1 && last.negative)
  }

  /** What any walk does, successful or not. */
  ghost predicate WellBehaved(
    provider: Provider, number: nat, cursor: string, seen: set<string>, before: seq<Record>, bounds: Options, r: Report) {
    && (r.calls != [] ==> r.calls[0] == cursor)
    && (forall i :: 0 < i < |r.calls| ==> r.calls[i] !in seen)
    && |r.calls| <= bounds.maxPages + 1 - number
    && r.result != Err(NoTerminalCursor)
    && Distinct(r.calls) && Followed(provider, number, r.calls)
    && (r.result.Ok? ==> Explains(provider, number, r.calls, before, r.result.value, bounds.maxRecords))
  }

  lemma FollowedGrows(provider: Provider, number: nat, cursor: string, rest: seq<string>)
    requires Followed(provider, number + 1, rest)
    requires rest != [] ==> rest[0] != "" && rest[0] == Trim(PageOf(provider(number, cursor)).nextCursor)
    ensures Followed(provider, number, [cursor] + rest)
  {
    var calls := [cursor] + rest;
    forall i | 0 < i < |calls| ensures Names(provider, number, calls, i) {
      if i > 1 {
        assert Names(provider, number + 1, rest, i - 1);
        assert calls[i - 1] == rest[i - 2] && number + 1 + (i - 1) - 1 == number + i - 1;
      }
    }
  }

  lemma DistinctGrows(cursor: string, rest: seq<string>)
    requires Distinct(rest) && (forall i :: 0 <= i < |rest| ==> rest[i] != cursor)
    ensures Distinct([cursor] + rest)
  {
  }

  lemma ExplainsMore(
    provider: Provider, number: nat, cursor: string, rest: seq<string>, before: seq<Record>, s: Snapshot, maxRecords: nat)
    requires number > 0
    requires Explains(provider, number + 1, rest, before + PageOf(provider(number, cursor)).records, s, maxRecords)
    ensures Explains(provider, number, [cursor] + rest, before, s, maxRecords)
  {
    var calls, records := [cursor] + rest, PageOf(provider(number, cursor)).records;
    assert calls[1..] == rest && calls[|calls| - 1] == rest[|rest| - 1];
    assert before + records + RecordsOf(provider, number + 1, rest) ==
           before + (records + RecordsOf(provider, number + 1, rest));
  }

  lemma {:induction false} LongerWalk(
    provider: Provider, number: nat, cursor: string, seen: set<string>, before: seq<Record>, bounds: Options,
    page: Page, rest: Report)
    requires provider(number, cursor) == Resolved(page) && 1 <= number < bounds.maxPages
    requires cursor == "" || cursor in seen
    requires Trim(page.nextCursor) != "" && Trim(page.nextCursor) !in seen && !page.negative
    requires WellBehaved(provider, number + 1, Trim(page.nextCursor), seen + {Trim(page.nextCursor)},
                         before + page.records, bounds, rest)
    ensures WellBehaved(provider, number, cursor, seen, before, bounds, Report(rest.result, [cursor] + rest.calls))
  {
    FollowedGrows(provider, number, cursor, rest.calls);
    forall i | 0 <= i < |rest.calls| ensures rest.calls[i] !in seen && rest.calls[i] != cursor {
      if i > 0 {
        assert rest.calls[i] !in seen + {Trim(page.nextCursor)};
        assert Names(provider, number + 1, rest.calls, i);
      }
    }
    DistinctGrows(cursor, rest.calls);
    if rest.result.Ok? {
      ExplainsMore(provider, number, cursor, rest.calls, before, rest.result.value, bounds.maxRecords);
    }
  }

  lemma {:induction false} WalkIsWellBehaved(
    provider: Provider, nonce: nat -> bool, number: nat, cursor: string, seen: set<string>,
    soFar: Snapshot, bounds: Options)
    requires 1 <= number <= bounds.maxPages
    requires cursor == "" || cursor in seen
    ensures WellBehaved(provider, number, cursor, seen, if number == 1 then [] else soFar.records, bounds,
                        Walk(provider, nonce, number, cursor, seen, soFar, bounds))
    decreases bounds.maxPages - number
  {
    var before := if number == 1 then [] else soFar.records;
    var answer := provider(number, cursor);
    if (number == 1 || nonce(number)) && answer.Resolved? {
      var added := AddPage(number, soFar, answer.page, bounds.maxRecords);
      var next := Trim(answer.page.nextCursor);
      if added.Ok? {
        if LastPage(answer.page) {
          assert [cursor][1..] == [];
          assert RecordsOf(provider, number, [cursor]) == answer.page.records + [];
        } else if next !in seen && number < bounds.maxPages {
          WalkIsWellBehaved(provider, nonce, number + 1, next, seen + {next}, added.value, bounds);
          LongerWalk(provider, number, cursor, seen, before, bounds, answer.page,
                     Walk(provider, nonce, number + 1, next, seen + {next}, added.value, bounds));
        }
      }
    }
  }

  /** Whatever the provider answers: at most `maxPages` calls, never a repeated
      cursor, never the last-resort error; and a snapshot is returned only after
      an empty cursor or a negative first page, holding every record of the pages
      asked for, in order, within the bound. */
  lemma ScanAgainstAnyProvider(provider: Provider, nonce: nat -> bool, request: Request, options: Options)
    ensures var r := ScanReport(provider, nonce, request, options);
            && |r.calls| <= MAX_SCAN_PAGES
            && (r.calls != [] ==> ScanBounds(options).Ok? && |r.calls| <= ScanBounds(options).value.maxPages)
            && Distinct(r.calls) && Followed(provider, 1, r.calls)
            && r.result != Err(NoTerminalCursor)
            && (r.result.Ok? ==>
                  ScanBounds(options).Ok? &&
                  Explains(provider, 1, r.calls, [], r.result.value, ScanBounds(options).value.maxRecords))
  {
    var start, bounds := CheckRequest(request), ScanBounds(options);
    if start.Ok? && bounds.Ok? {
      WalkIsWellBehaved(provider, nonce, 1, start.value, StartSeen(start.value), NOTHING, bounds.value);
    }
  }

  // ------------------------------------------------ exactly when a scan succeeds

  /** The provider's answer to call `number` is a page of this kind that may be added. */
  predicate PageOk(provider: Provider, nonce: nat -> bool, number: nat, cursor: string, kind: string) {
    && provider(number, cursor).Resolved?
    && provider(number, cursor).page.answerKind == kind
    && ByteLength(Trim(provider(number, cursor).page.nextCursor)) <= 4096
    && (number > 1 ==> nonce(number) && !provider(number, cursor).page.negative)
  }

  /** Call `i` is answered by a good page, not a negative one unless it is the last. */
  predicate GoodCall(provider: Provider, nonce: nat -> bool, number: nat, calls: seq<string>, kind: string, i: nat)
    requires i < |calls|
  {
    && PageOk(provider, nonce, number + i, calls[i], kind)
    && (i < |calls| - 1 ==> !provider(number + i, calls[i]).page.negative)
  }

  ghost predicate PagesOk(provider: Provider, nonce: nat -> bool, number: nat, calls: seq<string>, kind: string) {
    forall i :: 0 <= i < |calls| ==> GoodCall(provider, nonce, number, calls, kind, i)
  }

  /** The calls walk a whole listing: good pages of one kind, each naming the next cursor, no
      cursor twice, and the last page naming none or being a negative answer. */
  ghost predicate Chain(provider: Provider, nonce: nat -> bool, number: nat, calls: seq<string>, kind: string) {
    && calls != [] && PagesOk(provider, nonce, number, calls, kind)
    && Followed(provider, number, calls) && Distinct(calls)
    && var last := PageOf(provider(number + |calls| - 1, calls[|calls| - 1]));
       Trim(last.nextCursor) == "" || last.negative
  }

  lemma PagesOkGrows(provider: Provider, nonce: nat -> bool, number: nat, cursor: string, rest: seq<string>, kind: string)
    requires PagesOk(provider, nonce, number + 1, rest, kind) && PageOk(provider, nonce, number, cursor, kind)
    requires !provider(number, cursor).page.negative
    ensures PagesOk(provider, nonce, number, [cursor] + rest, kind)
  {
    var calls := [cursor] + rest;
    forall i | 0 <= i < |calls| ensures GoodCall(provider, nonce, number, calls, kind, i) {
      if i > 0 {
        assert GoodCall(provider, nonce, number + 1, rest, kind, i - 1);
        assert number + 1 + (i - 1) == number + i && calls[i] == rest[i - 1];
      }
    }
  }

  /** A successful walk has met good pages of one kind only. */
  lemma {:induction false} SuccessMetGoodPages(
    provider: Provider, nonce: nat -> bool, number: nat, cursor: string, seen: set<string>, soFar: Snapshot, bounds: Options)
    requires 1 <= number <= bounds.maxPages
    ensures var r := Walk(provider, nonce, number, cursor, seen, soFar, bounds);
            r.result.Ok? ==>
              && r.calls != [] && r.calls[0] == cursor
              && PagesOk(provider, nonce, number, r.calls, r.result.value.answerKind)
              && (number > 1 ==> r.result.value.answerKind == soFar.answerKind)
    decreases bounds.maxPages - number
  {
    var r := Walk(provider, nonce, number, cursor, seen, soFar, bounds);
    if r.result.Ok? {
      var page := provider(number, cursor).page;
      var added := AddPage(number, soFar, page, bounds.maxRecords);
      if LastPage(page) {
        assert r.calls == [cursor];
        assert GoodCall(provider, nonce, number, r.calls, r.result.value.answerKind, 0);
      } else {
        var next := Trim(page.nextCursor);
        SuccessMetGoodPages(provider, nonce, number + 1, next, seen + {next}, added.value, bounds);
        var rest := Walk(provider, nonce, number + 1, next, seen + {next}, added.value, bounds);
        PagesOkGrows(provider, nonce, number, cursor, rest.calls, r.result.value.answerKind);
      }
    }
  }

  lemma ChainShortens(provider: Provider, nonce: nat -> bool, number: nat, calls: seq<string>, kind: string)
    requires Chain(provider, nonce, number, calls, kind) && |calls| > 1
    ensures Chain(provider, nonce, number + 1, calls[1..], kind)
    ensures var page := PageOf(provider(number, calls[0]));
            Trim(page.nextCursor) == calls[1] != "" && !page.negative
  {
    var rest, next := calls[1..], number + 1;
    forall i | 0 <= i < |rest| ensures GoodCall(provider, nonce, next, rest, kind, i) {
      assert GoodCall(provider, nonce, number, calls, kind, i + 1);
      assert next + i == number + (i + 1) && rest[i] == calls[i + 1];
    }
    forall i | 0 < i < |rest| ensures Names(provider, next, rest, i) {
      assert Names(provider, number, calls, i + 1);
      assert rest[i] == calls[i + 1] && rest[i - 1] == calls[i] && next + i - 1 == number + (i + 1) - 1;
    }
    assert Names(provider, number, calls, 1);
    assert GoodCall(provider, nonce, number, calls, kind, 0);
    assert number + |calls| - 1 == number + 1 + |rest| - 1;
  }

  /** The first page of a chain can be added, and is the last one exactly when it stands alone. */
  lemma HeadOfChain(
    provider: Provider, nonce: nat -> bool, number: nat, calls: seq<string>, kind: string, soFar: Snapshot, maxRecords: nat)
    requires 1 <= number && Chain(provider, nonce, number, calls, kind) && (number > 1 ==> soFar.answerKind == kind)
    requires |if number == 1 then [] else soFar.records| + |PageOf(provider(number, calls[0])).records| <= maxRecords
    ensures provider(number, calls[0]).Resolved? && (number == 1 || nonce(number))
    ensures var page := provider(number, calls[0]).page;
            var before := if number == 1 then [] else soFar.records;
            && AddPage(number, soFar, page, maxRecords) == Ok(Snapshot(kind, page.negative, before + page.records, number))
            && (LastPage(page) <==> |calls| == 1)
  {
    assert GoodCall(provider, nonce, number, calls, kind, 0);
    if |calls| > 1 { ChainShortens(provider, nonce, number, calls, kind); }
  }

  lemma WalkGoesOn(
    provider: Provider, nonce: nat -> bool, number: nat, cursor: string, seen: set<string>, soFar: Snapshot, bounds: Options)
    requires number <= bounds.maxPages && (number <= 1 || nonce(number)) && provider(number, cursor).Resolved?
    requires AddPage(number, soFar, provider(number, cursor).page, bounds.maxRecords).Ok?
    ensures var page := provider(number, cursor).page;
            var r := Walk(provider, nonce, number, cursor, seen, soFar, bounds).result;
            && (LastPage(page) ==> r.Ok?)
            && (!LastPage(page) && Trim(page.nextCursor) !in seen && number < bounds.maxPages ==>
                  r == Walk(provider, nonce, number + 1, Trim(page.nextCursor), seen + {Trim(page.nextCursor)},
                            AddPage(number, soFar, page, bounds.maxRecords).value, bounds).result)
  {
  }

  lemma TailIsUnseen(calls: seq<string>, seen: set<string>)
    requires |calls| > 1 && Distinct(calls) && forall i :: 0 < i < |calls| ==> calls[i] !in seen
    ensures forall i :: 0 < i < |calls[1..]| ==> calls[1..][i] !in seen + {calls[1]}
  {
    forall i | 0 < i < |calls[1..]| ensures calls[1..][i] !in seen + {calls[1]} {
      assert calls[1..][i] == calls[i + 1];
    }
  }

  /** What the walk carries into call `number`. */
  predicate Fitting(provider: Provider, number: nat, calls: seq<string>, kind: string, soFar: Snapshot, bounds: Options) {
    && 1 <= number && calls != [] && number + |calls| - 1 <= bounds.maxPages
    && (number > 1 ==> soFar.answerKind == kind)
    && |if number == 1 then [] else soFar.records| + |RecordsOf(provider, number, calls)| <= bounds.maxRecords
  }

  function Extended(provider: Provider, number: nat, cursor: string, kind: string, soFar: Snapshot): Snapshot {
    var page := PageOf(provider(number, cursor));
    Snapshot(kind, page.negative, (if number == 1 then [] else soFar.records) + page.records, number)
  }

  lemma StillFitting(provider: Provider, number: nat, calls: seq<string>, kind: string, soFar: Snapshot, bounds: Options)
    requires Fitting(provider, number, calls, kind, soFar, bounds) && |calls| > 1
    ensures Fitting(provider, number + 1, calls[1..], kind, Extended(provider, number, calls[0], kind, soFar), bounds)
  {
    assert RecordsOf(provider, number, calls) ==
           PageOf(provider(number, calls[0])).records + RecordsOf(provider, number + 1, calls[1..]);
  }

  /** One call of the chain: it ends the walk, or the walk goes on with the next cursor. */
  lemma ChainStep(
    provider: Provider, nonce: nat -> bool, number: nat, calls: seq<string>, kind: string, seen: set<string>,
    soFar: Snapshot, bounds: Options)
    requires Chain(provider, nonce, number, calls, kind) && Fitting(provider, number, calls, kind, soFar, bounds)
    requires |calls| > 1 ==> calls[1] !in seen
    ensures var r := Walk(provider, nonce, number, calls[0], seen, soFar, bounds).result;
            && (|calls| == 1 ==> r.Ok?)
            && (|calls| > 1 ==>
                  r == Walk(provider, nonce, number + 1, calls[1], seen + {calls[1]},
                            Extended(provider, number, calls[0], kind, soFar), bounds).result)
  {
    assert RecordsOf(provider, number, calls) ==
           PageOf(provider(number, calls[0])).records + RecordsOf(provider, number + 1, calls[1..]);
    HeadOfChain(provider, nonce, number, calls, kind, soFar, bounds.maxRecords);
    if |calls| > 1 { ChainShortens(provider, nonce, number, calls, kind); }
    WalkGoesOn(provider, nonce, number, calls[0], seen, soFar, bounds);
  }

  /** Where there is a chain within the bounds, the walk follows it to its end. */
  lemma {:induction false} WalkFollowsChain(
    provider: Provider, nonce: nat -> bool, number: nat, calls: seq<string>, kind: string, seen: set<string>,
    soFar: Snapshot, bounds: Options)
    requires Chain(provider, nonce, number, calls, kind) && Fitting(provider, number, calls, kind, soFar, bounds)
    requires forall i :: 0 < i < |calls| ==> calls[i] !in seen
    ensures Walk(provider, nonce, number, calls[0], seen, soFar, bounds).result.Ok?
    decreases |calls|
  {
    ChainStep(provider, nonce, number, calls, kind, seen, soFar, bounds);
    if |calls| > 1 {
      ChainShortens(provider, nonce, number, calls, kind);
      StillFitting(provider, number, calls, kind, soFar, bounds);
      TailIsUnseen(calls, seen);
      WalkFollowsChain(provider, nonce, number + 1, calls[1..], kind, seen + {calls[1]},
                       Extended(provider, number, calls[0], kind, soFar), bounds);
    }
  }

  /** The calls a scan has to make, if it can succeed at all. */
  ghost predicate Answerable(provider: Provider, nonce: nat -> bool, calls: seq<string>, kind: string, start: string, bounds: Options) {
    && Chain(provider, nonce, 1, calls, kind) && calls[0] == start
    && |calls| <= bounds.maxPages && |RecordsOf(provider, 1, calls)| <= bounds.maxRecords
  }

  /** Against any provider a scan succeeds if and only if the request and the bounds are
      admissible and the provider's own answers form a chain from the request's cursor that
      fits the bounds. */
  lemma ScanSucceedsIff(provider: Provider, nonce: nat -> bool, request: Request, options: Options)
    ensures ScanReport(provider, nonce, request, options).result.Ok? <==>
              && CheckRequest(request).Ok? && ScanBounds(options).Ok?
              && exists calls, kind ::
                   Answerable(provider, nonce, calls, kind, CheckRequest(request).value, ScanBounds(options).value)
  {
    var start, bounds := CheckRequest(request), ScanBounds(options);
    if start.Ok? && bounds.Ok? {
      var r := Walk(provider, nonce, 1, start.value, StartSeen(start.value), NOTHING, bounds.value);
      if r.result.Ok? {
        WalkIsWellBehaved(provider, nonce, 1, start.value, StartSeen(start.value), NOTHING, bounds.value);
        SuccessMetGoodPages(provider, nonce, 1, start.value, StartSeen(start.value), NOTHING, bounds.value);
        assert [] + RecordsOf(provider, 1, r.calls) == RecordsOf(provider, 1, r.calls);
        assert Answerable(provider, nonce, r.calls, r.result.value.answerKind, start.value, bounds.value);
      }
      if calls, kind :| Answerable(provider, nonce, calls, kind, start.value, bounds.value) {
        WalkFollowsChain(provider, nonce, 1, calls, kind, StartSeen(start.value), NOTHING, bounds.value);
      }
    }
  }

  /** The bounds in force: the given ones, 64 pages and 25000 records by default, refused
      above 1024 pages or 500000 records. */
  lemma BoundsInForce(o: Options)
    ensures ScanBounds(o).Ok? <==> o.maxPages <= 1024 && o.maxRecords <= 500000
    ensures ScanBounds(o).Ok? ==>
              && ScanBounds(o).value.maxPages == (if o.maxPages == 0 then 64 else o.maxPages)
              && ScanBounds(o).value.maxRecords == (if o.maxRecords == 0 then 25000 else o.maxRecords)
  {
  }

  /** A request is admissible if it lists, asks for at most 500 records a page and starts at a
      cursor of at most 4096 bytes, white space aside. */
  lemma AdmissibleRequest(request: Request)
    ensures CheckRequest(request).Ok? <==>
              request.listing && request.limit <= 500 && ByteLength(Trim(request.cursor)) <= 4096
    ensures CheckRequest(request).Ok? ==> CheckRequest(request).value == Trim(request.cursor)
  {
  }

  // ---------------------------------------------- against a provider that pages

  /** A listing cut into pages: `cursors[i]` asks for `pages[i]`, and `wire[i]`
      is the continuation as page i sends it. */
  datatype Listing = Listing(kind: string, pages: seq<seq<Record>>, cursors: seq<string>, wire: seq<string>)

  ghost predicate ProperListing(l: Listing) {
    && l.pages != [] && |l.cursors| == |l.wire| == |l.pages|
    && (forall i :: 0 < i < |l.cursors| ==> l.cursors[i] != "" && Trim(l.wire[i - 1]) == l.cursors[i])
    && Trim(l.wire[|l.wire| - 1]) == ""
    && (forall i :: 0 <= i < |l.cursors| ==> ByteLength(l.cursors[i]) <= MAX_CURSOR_LENGTH)
    && Distinct(l.cursors)
  }

  ghost predicate Pages(provider: Provider, l: Listing)
    requires ProperListing(l)
  {
    forall number: nat, i: nat {:trigger provider(number, l.cursors[i])} :: i < |l.pages| ==>
      provider(number, l.cursors[i]) == Resolved(Page(l.kind, false, l.pages[i], l.wire[i]))
  }

  function Flatten(pages: seq<seq<Record>>): seq<Record> {
    if pages == [] then [] else Flatten(pages[..|pages| - 1]) + pages[|pages| - 1]
  }

  predicate Fits(l: Listing, bounds: Options) {
    |l.pages| <= bounds.maxPages && |Flatten(l.pages)| <= bounds.maxRecords
  }

  lemma {:induction false} FlattenGrows(pages: seq<seq<Record>>, n: nat)
    requires n <= |pages|
    ensures |Flatten(pages[..n])| <= |Flatten(pages)|
    ensures n < |pages| ==> Flatten(pages[..n + 1]) == Flatten(pages[..n]) + pages[n]
    decreases |pages| - n
  {
    if n < |pages| {
      assert pages[..n + 1][..n] == pages[..n];
      FlattenGrows(pages, n + 1);
    } else {
      assert pages[..n] == pages;
    }
  }

  /** The cursors of the first `n` pages, without an empty start. */
  ghost function SeenBefore(l: Listing, n: nat): set<string>
    requires n <= |l.cursors|
  {
    set i | 0 <= i < n && l.cursors[i] != "" :: l.cursors[i]
  }

  lemma {:induction false} PagedWalk(provider: Provider, nonce: nat -> bool, l: Listing, n: nat, soFar: Snapshot, bounds: Options)
    requires ProperListing(l) && Pages(provider, l) && n < |l.pages|
    requires forall k :: nonce(k)
    requires n > 0 ==> soFar.answerKind == l.kind && soFar.records == Flatten(l.pages[..n])
    requires n <= bounds.maxPages && |Flatten(l.pages[..n])| <= bounds.maxRecords
    ensures var r := Walk(provider, nonce, n + 1, l.cursors[n], SeenBefore(l, n + 1), soFar, bounds).result;
            && (Fits(l, bounds) ==> r == Ok(Snapshot(l.kind, false, Flatten(l.pages), |l.pages|)))
            && (!Fits(l, bounds) ==> r.Err?)
    decreases |l.pages| - n
  {
    var cursor, seen := l.cursors[n], SeenBefore(l, n + 1);
    FlattenGrows(l.pages, n + 1);
    FlattenGrows(l.pages, n);
    assert Flatten(l.pages[..0]) == [];
    assert provider(n + 1, cursor) == Resolved(Page(l.kind, false, l.pages[n], l.wire[n]));
    if n + 1 <= bounds.maxPages {
      var page := Page(l.kind, false, l.pages[n], l.wire[n]);
      var added := AddPage(n + 1, soFar, page, bounds.maxRecords);
      if n + 1 == |l.pages| {
        assert l.pages[..n + 1] == l.pages;
        assert ByteLength("") == 0;
      } else {
        var next := l.cursors[n + 1];
        assert Trim(page.nextCursor) == next && next !in seen;
        if added.Ok? {
          assert added.value.records == Flatten(l.pages[..n + 1]);
          if n + 1 < bounds.maxPages {
            assert seen + {next} == SeenBefore(l, n + 2);
            PagedWalk(provider, nonce, l, n + 1, added.value, bounds);
          }
        }
      }
    }
  }

  /** Against a provider that pages a fixed list the scan succeeds exactly when
      the pages and the records fit the bounds, and then returns the whole list
      in order. */
  lemma ScanOfListingIff(provider: Provider, nonce: nat -> bool, l: Listing, request: Request, options: Options)
    requires ProperListing(l) && Pages(provider, l) && forall k :: nonce(k)
    requires CheckRequest(request) == Ok(l.cursors[0]) && ScanBounds(options).Ok?
    ensures var r := ScanReport(provider, nonce, request, options).result;
            && (r.Ok? <==> Fits(l, ScanBounds(options).value))
            && (r.Ok? ==> r.value == Snapshot(l.kind, false, Flatten(l.pages), |l.pages|))
  {
    assert SeenBefore(l, 1) == StartSeen(l.cursors[0]);
    assert Flatten(l.pages[..0]) == [];
    PagedWalk(provider, nonce, l, 0, NOTHING, ScanBounds(options).value);
  }
}
