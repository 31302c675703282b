/** The creator's side of a booked order: the title and description check
    in front of the upload, the file extension sent with the upload request,
    the poll that waits for transcoding, and minting the delivered clip
    through the exchange contract the request id names.

    Signing, the upload service, the chain and the indexer are not part of
    this model: each call's outcome enters as a parameter (`None` for a call
    that rejects), and each call made is recorded in the page's `log`. */
module SelectedOrder {
  import opened Wrappers
  import opened Strings

  // ---------------------------------------------------------------------
  // The title and description check

  /** The per-field messages of the NFT form; `None` is an absent key. */
  datatype NftFormError = NftFormError(name: Option<string>, description: Option<string>)

  const EmptyField := "This field cannot be empty"

  /** `validate(name, desc)`: `undefined` when both are filled in, otherwise
      a message on each empty one. */
  function ValidateNft(name: string, desc: string): (r: Option<NftFormError>)
    ensures r.None? <==> name != "" && desc != ""
    ensures r.Some? ==> (r.value.name.Some? <==> name == "") && (r.value.description.Some? <==> desc == "")
    ensures r.Some? && r.value.name.Some? ==> r.value.name.value == EmptyField
    ensures r.Some? && r.value.description.Some? ==> r.value.description.value == EmptyField
  {
    if |name| == 0 && |desc| == 0 then Some(NftFormError(Some(EmptyField), Some(EmptyField)))
    else if |name| == 0 then Some(NftFormError(Some(EmptyField), None))
    else if |desc| == 0 then Some(NftFormError(None, Some(EmptyField)))
    else None
  }

  // ---------------------------------------------------------------------
  // The file extension and the contract version

  /** `name.split('.').pop() || ''`: the text after the last dot, or the
      whole name when it has no dot. */
  function FileExtension(name: string): (ext: string)
    ensures '.' !in ext
    ensures '.' !in name ==> ext == name
    ensures '.' in name ==> |ext| < |name| && name == name[..|name| - |ext| - 1] + "." + ext
  {
    LastPieceIsTail(name, '.');
    LastPiece(name, '.')
  }

  /** The two exchange contracts a request can have been booked on. */
  datatype Contract = ExchangeV0 | ExchangeV1

  /** `request.id.split('-')[1] === 'v0'` picks the first contract; any other
      second piece, or none at all, picks the second. */
  function ContractFor(id: string): (k: Contract)
    ensures k == ExchangeV0 ==> '-' in id
  {
    if PieceAt(id, '-', 1) == Some("v0") then
      assert '-' in id by {
        if '-' !in id {
          SplitWithoutSep(id, '-');
        }
      }
      ExchangeV0
    else ExchangeV1
  }

  /** An id without a dash has no second piece: the second contract. */
  lemma ContractForNoDash(id: string)
    requires '-' !in id
    ensures ContractFor(id) == ExchangeV1
  {
  }

  /** The second piece of `head-tail`, for a dash-free head, is the first
      piece of `tail`. */
  lemma SecondPiece(head: string, tail: string)
    requires '-' !in head
    ensures PieceAt(head + "-" + tail, '-', 1) == Some(Split(tail, '-')[0])
  {
    SplitAfterHead(head, '-', tail);
    assert head + "-" + tail == head + ['-'] + tail;
  }

  /** A dash-free head followed by `-v0` picks the first contract. */
  lemma ContractForV0(head: string)
    requires '-' !in head
    ensures ContractFor(head + "-v0") == ExchangeV0
  {
    assert head + "-v0" == head + "-" + "v0";
    SecondPiece(head, "v0");
    SplitWithoutSep("v0", '-');
  }

  /** So does a dash-free head followed by `-v0-` and anything at all. */
  lemma ContractForV0Then(head: string, rest: string)
    requires '-' !in head
    ensures ContractFor(head + "-v0-" + rest) == ExchangeV0
  {
    assert head + "-v0-" + rest == head + "-" + ("v0" + ['-'] + rest);
    SecondPiece(head, "v0" + ['-'] + rest);
    SplitAfterHead("v0", '-', rest);
  }

  /** `id` is a dash-free `head`, then `-v0`, then nothing or `-` and `rest`. */
  predicate V0Shaped(id: string, head: string, rest: string) {
    '-' !in head && (id == head + "-v0" || id == head + "-v0-" + rest)
  }

  /** And only those: an id that picks the first contract has one of these
      two shapes. */
  lemma ContractForV0Shape(id: string)
    requires ContractFor(id) == ExchangeV0
    ensures exists head, rest :: V0Shaped(id, head, rest)
  {
    var parts := Split(id, '-');
    SplitPiecesFree(id, '-');
    JoinSplit(id, '-');
    assert |parts| >= 2 && parts[1] == "v0";
    var head := parts[0];
    assert '-' !in head;
    assert id == head + "-" + Join(parts[1..], '-');
    if |parts| == 2 {
      assert Join(parts[1..], '-') == "v0";
      assert id == head + "-v0";
      assert V0Shaped(id, head, "");
    } else {
      var rest := Join(parts[2..], '-');
      assert parts[1..][1..] == parts[2..];
      assert Join(parts[1..], '-') == "v0" + "-" + rest;
      assert id == head + "-v0-" + rest;
      assert V0Shaped(id, head, rest);
    }
  }

  // ---------------------------------------------------------------------
  // The delivery receipt

  /** The arguments of a contract event: the token id field under each of
      its two names; `None` for a field the event does not carry. */
  datatype EventArgs = EventArgs(tokenId: Option<int>, nftTokenId: Option<int>)

  /** One decoded event of a transaction receipt. */
  datatype ChainEvent = ChainEvent(name: string, args: Option<EventArgs>)

  /** A mined transaction's receipt; `events` may be missing. */
  datatype Receipt = Receipt(events: Option<seq<ChainEvent>>)

  const DeliveredRequestEvent := "DeliveredRequest"

  /** The largest integer `BigNumber.toNumber()` converts without throwing. */
  const MaxSafeInteger := 9007199254740991

  /** `events.find(e => e.event === name)`: the first event with that name. */
  function FindEvent(events: seq<ChainEvent>, name: string): (r: Option<ChainEvent>)
    ensures r.Some? ==> r.value in events && r.value.name == name
    ensures r.None? <==> forall i :: 0 <= i < |events| ==> events[i].name != name
  {
    if events == [] then None
    else if events[0].name == name then Some(events[0])
    else FindEvent(events[1..], name)
  }

  /** The event `find` returns comes before every other event with its name. */
  lemma {:induction false} FindEventFirst(events: seq<ChainEvent>, name: string)
    requires FindEvent(events, name).Some?
    ensures exists i :: 0 <= i < |events| && events[i] == FindEvent(events, name).value
                        && forall j :: 0 <= j < i ==> events[j].name != name
  {
    if events[0].name != name {
      FindEventFirst(events[1..], name);
      var i :| 0 <= i < |events[1..]| && events[1..][i] == FindEvent(events[1..], name).value
                && forall j :: 0 <= j < i ==> events[1..][j].name != name;
      assert events[i + 1] == FindEvent(events, name).value;
      forall j | 0 <= j < i + 1 ensures events[j].name != name {
        if j > 0 {
          assert events[j] == events[1..][j - 1];
        }
      }
    } else {
      assert events[0] == FindEvent(events, name).value;
    }
  }

  /** What reading the delivered token id out of a receipt comes to. */
  datatype TokenRead = NoEvent | TokenId(id: int) | Throws

  /** `toNumber()` of a token id field: a missing field or a value outside
      the safe-integer range throws. */
  function ToNumber(field: Option<int>): (r: TokenRead)
    ensures !r.NoEvent?
    ensures r.TokenId? ==> -MaxSafeInteger <= r.id <= MaxSafeInteger
  {
    if field.Some? && -MaxSafeInteger <= field.value <= MaxSafeInteger then TokenId(field.value) else Throws
  }

  /** The token id `extractEvent` reads: nothing without a `DeliveredRequest`
      event that has arguments; otherwise `tokenId` on a `v0` request and
      `nftTokenId` on any other. */
  function DeliveredTokenId(receipt: Receipt, version: string): (r: TokenRead)
    ensures r != NoEvent <==>
      && receipt.events.Some?
      && (exists e :: e in receipt.events.value && e.name == DeliveredRequestEvent)
      && FindEvent(receipt.events.value, DeliveredRequestEvent).value.args.Some?
    ensures r.TokenId? ==>
      var args := FindEvent(receipt.events.value, DeliveredRequestEvent).value.args.value;
      Some(r.id) == if version == "v0" then args.tokenId else args.nftTokenId
    ensures r != NoEvent ==>
      var args := FindEvent(receipt.events.value, DeliveredRequestEvent).value.args.value;
      var field := if version == "v0" then args.tokenId else args.nftTokenId;
      (r.TokenId? <==> field.Some? && -MaxSafeInteger <= field.value <= MaxSafeInteger)
  {
    if receipt.events.None? then NoEvent
    else
      var found := FindEvent(receipt.events.value, DeliveredRequestEvent);
      if found.None? || found.value.args.None? then NoEvent
      else
        var args := found.value.args.value;
        ToNumber(if version == "v0" then args.tokenId else args.nftTokenId)
  }

  /** A request's version decides which argument is read, whatever the other
      one holds. */
  lemma TokenIdByVersion(tokenId: int, other: Option<int>)
    requires -MaxSafeInteger <= tokenId <= MaxSafeInteger
    ensures DeliveredTokenId(Receipt(Some([ChainEvent(DeliveredRequestEvent, Some(EventArgs(Some(tokenId), other)))])), "v0")
            == TokenId(tokenId)
    ensures DeliveredTokenId(Receipt(Some([ChainEvent(DeliveredRequestEvent, Some(EventArgs(other, Some(tokenId))))])), "v1")
            == TokenId(tokenId)
  {
  }

  // ---------------------------------------------------------------------
  // The upload status poll

  /** A reply of the upload status endpoint. */
  datatype StatusReport = StatusReport(transcodingComplete: string, imageComplete: Option<bool>, videoComplete: Option<bool>)

  /** The poll stops and finalizes only on `'succeeded'` with both flags
      strictly `true`. */
  predicate TranscodeFinished(report: StatusReport) {
    report.transcodingComplete == "succeeded" && report.imageComplete == Some(true) && report.videoComplete == Some(true)
  }

  /** The outcomes of one poll tick's calls: the status reply, the arweave
      URL `finalizeFileUpload` returns, and the metadata fetched from it. */
  datatype Tick = Tick(report: Option<StatusReport>, arweaveUrl: Option<string>, metadata: Option<string>)

  // ---------------------------------------------------------------------
  // The page

  /** An order as the page loads it. */
  datatype Request = Request(id: string, requestId: string, version: string, nftTokenAddress: string, delivered: bool)

  /** The upload a successful drop started, with the title and description
      captured when the file was dropped. */
  datatype UploadJob = UploadJob(uuid: string, name: string, description: string)

  datatype ToastKind = Success | Error

  /** What the page asks of the outside world, in order. */
  datatype Effect =
    | Toast(kind: ToastKind, text: string)
    | SignMessage(message: string)
    | RequestUploadLink(extension: string)
    | FinalizeUpload(uuid: string, description: string, name: string)
    | FetchMetadata(url: string)
    | DeliverRequest(contract: Contract, requestId: string, uri: string)
    | FetchNft(tokenAddress: string, tokenId: int, tokenUri: string)
    | IndexRequest(txHash: string)

  const UploadMessage := "I am uploading a video to complete the Order"
  const AddDetails := "Please add title and description"
  const UploadFailed := "Error uploading file. File size should be less than 50mb"
  const PermalinkFailed := "Error generating permalink"
  const NoRequest := "Request not found. Try reloading the page..."
  const MintFailed := "Failed to mint NFT!"
  const MintSucceeded := "Successfully completed order! Order status will be reflected shortly."
  const ArweavePrefix := "https://arweave.net/"

  // ---------------------------------------------------------------------
  // What each step asks of the outside world

  /** A drop goes as far as starting an upload. */
  predicate DropStartsUpload(name: string, desc: string, fileNames: seq<string>, signed: bool, uploadUuid: Option<string>) {
    ValidateNft(name, desc).None? && signed && fileNames != [] && uploadUuid.Some?
  }

  /** The calls and toasts of `onDrop`. */
  function DropEffects(name: string, desc: string, fileNames: seq<string>, signed: bool, uploadUuid: Option<string>)
    : (effects: seq<Effect>)
    ensures 1 <= |effects| <= 3
    ensures effects[|effects| - 1].Toast? <==> !DropStartsUpload(name, desc, fileNames, signed, uploadUuid)
  {
    if ValidateNft(name, desc).Some? then [Toast(Error, AddDetails)]
    else if !signed || fileNames == [] then [SignMessage(UploadMessage), Toast(Error, UploadFailed)]
    else
      [SignMessage(UploadMessage), RequestUploadLink(FileExtension(fileNames[0]))]
      + (if uploadUuid.None? then [Toast(Error, UploadFailed)] else [])
  }

  /** A drop with a title or description missing shows only its toast:
      nothing is signed and no upload link is asked for. */
  lemma DropGate(name: string, desc: string, fileNames: seq<string>, signed: bool, uploadUuid: Option<string>)
    ensures ValidateNft(name, desc).Some? <==>
      DropEffects(name, desc, fileNames, signed, uploadUuid) == [Toast(Error, AddDetails)]
    ensures ValidateNft(name, desc).Some? ==>
      forall e :: e in DropEffects(name, desc, fileNames, signed, uploadUuid) ==> !e.SignMessage? && !e.RequestUploadLink?
  {
  }

  /** A drop that passes the check signs first, asks for a link only after
      signing and for a dot-free extension, and ends in the size toast unless
      the upload starts. */
  lemma DropAfterGate(name: string, desc: string, fileNames: seq<string>, signed: bool, uploadUuid: Option<string>)
    requires ValidateNft(name, desc).None?
    ensures var effects := DropEffects(name, desc, fileNames, signed, uploadUuid);
      && effects[0] == SignMessage(UploadMessage)
      && (forall e :: e in effects && e.RequestUploadLink? ==> signed && '.' !in e.extension)
      && (effects[|effects| - 1] == Toast(Error, UploadFailed) <==> !DropStartsUpload(name, desc, fileNames, signed, uploadUuid))
  {
  }

  /** A poll tick stops the poll: on a failed status call, or once
      transcoding is finished. */
  predicate TickStopsPoll(t: Tick) {
    t.report.None? || TranscodeFinished(t.report.value)
  }

  /** A poll tick stores the arweave URL and metadata. */
  predicate TickStores(t: Tick) {
    t.report.Some? && TranscodeFinished(t.report.value) && t.arweaveUrl.Some? && t.metadata.Some?
  }

  /** The calls and toasts of one poll tick for the given upload. */
  function TickEffects(job: UploadJob, t: Tick): (effects: seq<Effect>)
    ensures |effects| <= 3
    ensures forall e :: e in effects ==> e.Toast? || e.FinalizeUpload? || e.FetchMetadata?
    ensures effects == [] <==> t.report.Some? && !TranscodeFinished(t.report.value)
  {
    if t.report.None? then [Toast(Error, PermalinkFailed)]
    else if !TranscodeFinished(t.report.value) then []
    else
      [FinalizeUpload(job.uuid, job.description, job.name)]
      + (if t.arweaveUrl.None? then [Toast(Error, PermalinkFailed)]
         else [FetchMetadata(t.arweaveUrl.value)] + (if t.metadata.None? then [Toast(Error, PermalinkFailed)] else []))
  }

  /** The status line after one poll tick. */
  function TickStatus(status: string, t: Tick): string {
    if t.report.None? then status
    else if !TranscodeFinished(t.report.value) then "Transcoding..."
    else if TickStores(t) then ""
    else "Transcoding Complete..."
  }

  /** The number of `finalizeFileUpload` calls among the first `n` effects
      of a log. */
  function FinalizesUpTo(log: seq<Effect>, n: nat): (c: nat)
    requires n <= |log|
    ensures c <= n
  {
    if n == 0 then 0 else FinalizesUpTo(log, n - 1) + if log[n - 1].FinalizeUpload? then 1 else 0
  }

  /** The number of `finalizeFileUpload` calls in a log. */
  function FinalizeCount(log: seq<Effect>): (n: nat)
    ensures n <= |log|
  {
    FinalizesUpTo(log, |log|)
  }

  /** Effects appended after position `n` do not change the count up to it. */
  lemma {:induction false} FinalizesUpToPrefix(log: seq<Effect>, more: seq<Effect>, n: nat)
    requires n <= |log|
    ensures FinalizesUpTo(log + more, n) == FinalizesUpTo(log, n)
  {
    if n > 0 {
      FinalizesUpToPrefix(log, more, n - 1);
      assert (log + more)[n - 1] == log[n - 1];
    }
  }

  /** Counting into appended effects adds their finalize calls. */
  lemma {:induction false} FinalizesUpToAppend(log: seq<Effect>, more: seq<Effect>, k: nat)
    requires k <= |more|
    ensures FinalizesUpTo(log + more, |log| + k) == FinalizeCount(log) + FinalizesUpTo(more, k)
  {
    if k == 0 {
      FinalizesUpToPrefix(log, more, |log|);
    } else {
      FinalizesUpToAppend(log, more, k - 1);
      assert (log + more)[|log| + k - 1] == more[k - 1];
    }
  }

  /** Appending effects adds their finalize calls. */
  lemma FinalizeCountAppend(log: seq<Effect>, more: seq<Effect>)
    ensures FinalizeCount(log + more) == FinalizeCount(log) + FinalizeCount(more)
  {
    FinalizesUpToAppend(log, more, |more|);
  }

  /** The effects of a tick that finds transcoding finished: the finalize
      call, then either the permalink toast or the metadata fetch, which a
      missing metadata reply follows with the toast. */
  lemma FinishedTickEffects(job: UploadJob, t: Tick)
    requires t.report.Some? && TranscodeFinished(t.report.value)
    ensures TickEffects(job, t) == [FinalizeUpload(job.uuid, job.description, job.name)] + TickEffects(job, t)[1..]
    ensures FinalizeCount(TickEffects(job, t)[1..]) == 0
  {
    var rest := TickEffects(job, t)[1..];
    if t.arweaveUrl.None? {
      assert rest == [Toast(Error, PermalinkFailed)];
    } else if t.metadata.None? {
      assert rest == [FetchMetadata(t.arweaveUrl.value), Toast(Error, PermalinkFailed)];
      assert FinalizesUpTo(rest, 1) == 0;
    } else {
      assert rest == [FetchMetadata(t.arweaveUrl.value)];
    }
  }

  /** A tick calls `finalizeFileUpload` once when it finds transcoding
      finished, and otherwise not at all. */
  lemma TickFinalizeCount(job: UploadJob, t: Tick)
    ensures FinalizeCount(TickEffects(job, t)) == if TickStopsPoll(t) && t.report.Some? then 1 else 0
  {
    var effects := TickEffects(job, t);
    if t.report.Some? && TranscodeFinished(t.report.value) {
      var f := FinalizeUpload(job.uuid, job.description, job.name);
      FinishedTickEffects(job, t);
      FinalizeCountAppend([f], effects[1..]);
      assert FinalizeCount([f]) == 1;
    }
  }

  /** A tick ends in the permalink toast exactly when it stops the poll
      without storing the result. */
  lemma TickPermalinkToast(job: UploadJob, t: Tick)
    ensures TickStopsPoll(t) && !TickStores(t) <==>
      TickEffects(job, t) != [] && TickEffects(job, t)[|TickEffects(job, t)| - 1] == Toast(Error, PermalinkFailed)
  {
    if t.report.Some? && TranscodeFinished(t.report.value) && t.arweaveUrl.Some? {
      var effects := TickEffects(job, t);
      if t.metadata.Some? {
        assert effects == [FinalizeUpload(job.uuid, job.description, job.name), FetchMetadata(t.arweaveUrl.value)];
      } else {
        assert effects[|effects| - 1] == Toast(Error, PermalinkFailed);
      }
    }
  }

  /** A tick finalizes exactly when it finds transcoding finished, and then
      once, with the title and description captured at the drop; a failing
      tick always ends in the permalink toast. */
  lemma TickFinalizes(job: UploadJob, t: Tick)
    ensures FinalizeCount(TickEffects(job, t)) == if TickStopsPoll(t) && t.report.Some? then 1 else 0
    ensures forall e :: e in TickEffects(job, t) && e.FinalizeUpload? ==>
      e == FinalizeUpload(job.uuid, job.description, job.name)
    ensures TickStopsPoll(t) && !TickStores(t) <==>
      TickEffects(job, t) != [] && TickEffects(job, t)[|TickEffects(job, t)| - 1] == Toast(Error, PermalinkFailed)
  {
    TickFinalizeCount(job, t);
    TickPermalinkToast(job, t);
  }

  /** The index of the first tick from `i` on that stops the poll, or the
      number of ticks when none does. */
  function StopFrom(ticks: seq<Tick>, i: nat): (k: nat)
    requires i <= |ticks|
    ensures i <= k <= |ticks|
    ensures forall j :: i <= j < k ==> !TickStopsPoll(ticks[j])
    ensures k < |ticks| ==> TickStopsPoll(ticks[k])
    decreases |ticks| - i
  {
    if i == |ticks| || TickStopsPoll(ticks[i]) then i else StopFrom(ticks, i + 1)
  }

  /** The index of the first tick that stops the poll, or the number of
      ticks when none does. */
  function FirstStop(ticks: seq<Tick>): (k: nat)
    ensures k <= |ticks|
    ensures forall j :: 0 <= j < k ==> !TickStopsPoll(ticks[j])
    ensures k < |ticks| ==> TickStopsPoll(ticks[k])
  {
    StopFrom(ticks, 0)
  }

  /** How many ticks the interval runs before it is cleared: up to and
      including the first one that stops it. */
  function Processed(ticks: seq<Tick>): nat {
    if FirstStop(ticks) < |ticks| then FirstStop(ticks) + 1 else |ticks|
  }

  /** The effects of the first `n` ticks, one tick after another. */
  function RunEffects(job: UploadJob, ticks: seq<Tick>, n: nat): seq<Effect>
    requires n <= |ticks|
  {
    if n == 0 then [] else RunEffects(job, ticks, n - 1) + TickEffects(job, ticks[n - 1])
  }

  /** What the poll changes on the page: the status line, the token URI and
      the metadata. */
  datatype PollView = PollView(status: string, tokenUri: string, metadata: Option<string>)

  /** The page's poll view after one tick. */
  function AfterTick(view: PollView, t: Tick): PollView {
    PollView(TickStatus(view.status, t),
             if TickStores(t) then t.arweaveUrl.value else view.tokenUri,
             if TickStores(t) then t.metadata else view.metadata)
  }

  /** The page's poll view after the first `n` ticks. */
  function AfterTicks(view: PollView, ticks: seq<Tick>, n: nat): PollView
    requires n <= |ticks|
  {
    if n == 0 then view else AfterTick(AfterTicks(view, ticks, n - 1), ticks[n - 1])
  }

  /** One more tick appended to a log that already holds a run's effects. */
  lemma RunLogStep(before: seq<Effect>, job: UploadJob, ticks: seq<Tick>, i: nat)
    requires i < |ticks|
    ensures before + RunEffects(job, ticks, i) + TickEffects(job, ticks[i]) == before + RunEffects(job, ticks, i + 1)
  {
  }

  /** A tick at or before the first stopping one stops the poll exactly when
      it is that one. */
  lemma StopStep(ticks: seq<Tick>, i: nat)
    requires i < |ticks| && i <= FirstStop(ticks)
    ensures !TickStopsPoll(ticks[i]) <==> i + 1 <= FirstStop(ticks)
    ensures i + 1 <= Processed(ticks)
  {
  }

  /** Where the interval ends: it has run the processed ticks, and it still
      polls exactly when no tick stopped it. */
  lemma StopEnd(ticks: seq<Tick>, i: nat, polling: bool)
    requires i <= Processed(ticks) && (polling <==> i <= FirstStop(ticks))
    requires !(i < |ticks| && polling)
    ensures i == Processed(ticks)
    ensures polling <==> FirstStop(ticks) == |ticks|
  {
  }

  /** Whether a tick calls finalize: it stops the poll with a status reply. */
  predicate TickFinalizesUpload(t: Tick) {
    TickStopsPoll(t) && t.report.Some?
  }

  /** How many of the first `n` ticks call finalize. */
  function FinalizingTicks(ticks: seq<Tick>, n: nat): nat
    requires n <= |ticks|
  {
    if n == 0 then 0 else FinalizingTicks(ticks, n - 1) + if TickFinalizesUpload(ticks[n - 1]) then 1 else 0
  }

  /** A tick appended to a log adds one finalize call when it finalizes,
      and none otherwise. */
  lemma LogFinalizeStep(before: seq<Effect>, job: UploadJob, t: Tick)
    ensures FinalizeCount(before + TickEffects(job, t)) == FinalizeCount(before) + if TickFinalizesUpload(t) then 1 else 0
  {
    TickFinalizeCount(job, t);
    FinalizeCountAppend(before, TickEffects(job, t));
  }

  /** The finalize calls in a run's effects are one per finalizing tick. */
  lemma {:induction false} RunFinalizeCalls(job: UploadJob, ticks: seq<Tick>, n: nat)
    requires n <= |ticks|
    ensures FinalizeCount(RunEffects(job, ticks, n)) == FinalizingTicks(ticks, n)
  {
    if n > 0 {
      RunFinalizeCalls(job, ticks, n - 1);
      LogFinalizeStep(RunEffects(job, ticks, n - 1), job, ticks[n - 1]);
      assert RunEffects(job, ticks, n) == RunEffects(job, ticks, n - 1) + TickEffects(job, ticks[n - 1]);
    }
  }

  /** The finalize calls a run adds to a log are one per finalizing tick. */
  lemma RunFinalizeTotal(before: seq<Effect>, job: UploadJob, ticks: seq<Tick>, n: nat)
    requires n <= |ticks|
    ensures FinalizeCount(before + RunEffects(job, ticks, n)) == FinalizeCount(before) + FinalizingTicks(ticks, n)
  {
    RunFinalizeCalls(job, ticks, n);
    FinalizeCountAppend(before, RunEffects(job, ticks, n));
  }

  /** Ticks before the first stopping one never finalize. */
  lemma {:induction false} QuietPrefix(ticks: seq<Tick>, j: nat)
    requires j <= FirstStop(ticks)
    ensures FinalizingTicks(ticks, j) == 0
  {
    if j > 0 {
      QuietPrefix(ticks, j - 1);
      assert !TickStopsPoll(ticks[j - 1]);
    }
  }

  /** A run of the interval finalizes once when it is stopped by a tick
      that finds transcoding finished, and otherwise never: neither when a
      failed status call stops it nor while it is still running. */
  lemma RunFinalizeCount(ticks: seq<Tick>)
    ensures FinalizingTicks(ticks, Processed(ticks)) ==
      if FirstStop(ticks) < |ticks| && ticks[FirstStop(ticks)].report.Some? then 1 else 0
  {
    QuietPrefix(ticks, FirstStop(ticks));
  }

  /** Status replies that find transcoding still running, then one that
      finds it finished: the poll stops at that tick and finalizes once. */
  lemma RunFinalizesOnce(ticks: seq<Tick>, k: nat)
    requires k < |ticks| && ticks[k].report.Some? && TranscodeFinished(ticks[k].report.value)
    requires forall j :: 0 <= j < k ==> ticks[j].report.Some? && !TranscodeFinished(ticks[j].report.value)
    ensures FirstStop(ticks) == k && Processed(ticks) == k + 1
    ensures FinalizingTicks(ticks, k + 1) == 1
  {
    RunFinalizeCount(ticks);
  }

  /** Whether `completeBooking` ends well: the transaction is sent and mined,
      reading the token id does not throw, and indexing succeeds. */
  predicate BookingSucceeds(req: Request, txHash: Option<string>, receipt: Option<Receipt>, indexed: bool) {
    txHash.Some? && receipt.Some? && !DeliveredTokenId(receipt.value, req.version).Throws? && indexed
  }

  /** The calls and toasts of `completeBooking` for a loaded request. */
  function BookingEffects(req: Request, tokenUri: string, txHash: Option<string>, receipt: Option<Receipt>, indexed: bool)
    : (effects: seq<Effect>)
    ensures 2 <= |effects| <= 4
    ensures effects[0].DeliverRequest? && effects[|effects| - 1].Toast?
  {
    [DeliverRequest(ContractFor(req.id), req.requestId, ArweavePrefix + tokenUri)]
    + AfterDelivery(req, tokenUri, txHash, receipt, indexed)
  }

  /** The calls and toasts of `completeBooking` after the contract call. */
  function AfterDelivery(req: Request, tokenUri: string, txHash: Option<string>, receipt: Option<Receipt>, indexed: bool)
    : seq<Effect>
  {
    if txHash.None? || receipt.None? then [Toast(Error, MintFailed)]
    else
      var read := DeliveredTokenId(receipt.value, req.version);
      (if read.TokenId? then [FetchNft(req.nftTokenAddress, read.id, tokenUri)] else [])
      + (if read.Throws? then [Toast(Error, MintFailed)]
         else [IndexRequest(txHash.value)] + [if indexed then Toast(Success, MintSucceeded) else Toast(Error, MintFailed)])
  }

  /** `completeBooking` always first calls the contract the request id names
      with the arweave URI of the upload, and ends in the success toast
      exactly when it succeeds, in the failure toast otherwise. */
  lemma BookingOutcome(req: Request, tokenUri: string, txHash: Option<string>, receipt: Option<Receipt>, indexed: bool)
    ensures var effects := BookingEffects(req, tokenUri, txHash, receipt, indexed);
      && effects[0] == DeliverRequest(ContractFor(req.id), req.requestId, ArweavePrefix + tokenUri)
      && effects[|effects| - 1] == (if BookingSucceeds(req, txHash, receipt, indexed) then Toast(Success, MintSucceeded)
                                    else Toast(Error, MintFailed))
      && (BookingSucceeds(req, txHash, receipt, indexed) ==> IndexRequest(txHash.value) in effects)
  {
    var effects := BookingEffects(req, tokenUri, txHash, receipt, indexed);
    if BookingSucceeds(req, txHash, receipt, indexed) {
      assert effects[|effects| - 2] == IndexRequest(txHash.value);
    }
  }

  // ---------------------------------------------------------------------
  // The page

  /** The order page's state. */
  class OrderPage {
    var request: Option<Request>
    var nftName: string
    var description: string
    var formError: Option<NftFormError>
    var uploadStatus: string
    var job: Option<UploadJob>
    var polling: bool
    var tokenUri: string
    var uploadMetadata: Option<string>
    var done: bool
    var minting: bool
    var log: seq<Effect>

    /** Only an upload that started can be polled. */
    ghost predicate Valid()
      reads this
    {
      polling ==> job.Some?
    }

    /** The page once the order has loaded, before anything is typed. */
    constructor (request: Option<Request>)
      ensures Valid()
      ensures this.request == request && nftName == "" && description == "" && formError.None?
      ensures uploadStatus == "" && job.None? && !polling && tokenUri == "" && uploadMetadata.None?
      ensures !done && !minting && log == []
    {
      this.request := request;
      nftName := "";
      description := "";
      formError := None;
      uploadStatus := "";
      job := None;
      polling := false;
      tokenUri := "";
      uploadMetadata := None;
      done := false;
      minting := false;
      log := [];
    }

    /** The title and description fields and the dropzone are on the page:
        the order is neither delivered nor done here. */
    predicate UploadFormShown()
      reads this
    {
      !((request.Some? && request.value.delivered) || done)
    }

    /** Typing into the title and description fields, which are only on the
        page while the upload form is. */
    method EditDetails(name: string, desc: string)
      modifies this
      requires Valid()
      ensures Valid()
      ensures old(UploadFormShown()) ==> nftName == name && description == desc
      ensures !old(UploadFormShown()) ==> nftName == old(nftName) && description == old(description)
      ensures request == old(request) && formError == old(formError) && uploadStatus == old(uploadStatus)
      ensures job == old(job) && polling == old(polling) && tokenUri == old(tokenUri)
      ensures uploadMetadata == old(uploadMetadata) && done == old(done) && minting == old(minting) && log == old(log)
    {
      if UploadFormShown() {
        nftName := name;
        description := desc;
      }
    }

    /** `onDrop`, reachable only while the dropzone is on the page: with a
        title or description missing, show the toast,
        record the form error and stop. Otherwise clear the form error, sign,
        ask for an upload link for the first file's extension and start the
        upload; any failure on the way shows the size toast. `signed` is
        whether signing succeeded, `uploadUuid` the job of an upload link,
        resumable URL and upload that were all obtained. */
    method Drop(fileNames: seq<string>, signed: bool, uploadUuid: Option<string>)
      modifies this
      requires Valid()
      ensures Valid()
      ensures !old(UploadFormShown()) ==>
        log == old(log) && formError == old(formError) && uploadStatus == old(uploadStatus) && job == old(job)
      ensures old(UploadFormShown()) ==>
        log == old(log) + DropEffects(old(nftName), old(description), fileNames, signed, uploadUuid)
      ensures old(UploadFormShown()) ==>
        formError == (if ValidateNft(old(nftName), old(description)).Some? then ValidateNft(old(nftName), old(description))
                      else Some(NftFormError(None, None)))
      ensures old(UploadFormShown()) ==>
        if DropStartsUpload(old(nftName), old(description), fileNames, signed, uploadUuid) then
          uploadStatus == "Uploading..." && job == Some(UploadJob(uploadUuid.value, old(nftName), old(description)))
        else uploadStatus == old(uploadStatus) && job == old(job)
      ensures request == old(request) && nftName == old(nftName) && description == old(description)
      ensures polling == old(polling) && tokenUri == old(tokenUri) && uploadMetadata == old(uploadMetadata)
      ensures done == old(done) && minting == old(minting)
    {
      if !UploadFormShown() {
        return;
      }
      var invalid := ValidateNft(nftName, description);
      if invalid.Some? {
        log := log + [Toast(Error, AddDetails)];
        formError := invalid;
        return;
      }
      formError := Some(NftFormError(None, None));
      log := log + [SignMessage(UploadMessage)];
      if !signed || fileNames == [] {
        log := log + [Toast(Error, UploadFailed)];
        return;
      }
      log := log + [RequestUploadLink(FileExtension(fileNames[0]))];
      if uploadUuid.None? {
        log := log + [Toast(Error, UploadFailed)];
        return;
      }
      uploadStatus := "Uploading...";
      job := Some(UploadJob(uploadUuid.value, nftName, description));
    }

    /** The upload's `error` event: a toast with the event's detail. */
    method UploadErrored(detail: string)
      modifies this
      requires Valid()
      ensures Valid()
      ensures log == old(log) + [Toast(Error, "Error uploading: " + detail)]
      ensures request == old(request) && nftName == old(nftName) && description == old(description)
      ensures formError == old(formError) && uploadStatus == old(uploadStatus) && job == old(job)
      ensures polling == old(polling) && tokenUri == old(tokenUri) && uploadMetadata == old(uploadMetadata)
      ensures done == old(done) && minting == old(minting)
    {
      log := log + [Toast(Error, "Error uploading: " + detail)];
    }

    /** The upload's `success` event starts the status poll. */
    method UploadSucceeded()
      modifies this
      requires Valid() && job.Some?
      ensures Valid()
      ensures polling
      ensures request == old(request) && nftName == old(nftName) && description == old(description)
      ensures formError == old(formError) && uploadStatus == old(uploadStatus) && job == old(job)
      ensures tokenUri == old(tokenUri) && uploadMetadata == old(uploadMetadata)
      ensures done == old(done) && minting == old(minting) && log == old(log)
    {
      polling := true;
    }

    /** One tick of `checkUploadInterval`. A status reply sets
        "Transcoding..."; a finished transcode clears the interval before
        finalizing with the title and description captured at the drop, and
        on success stores the arweave URL and metadata. A failed call shows
        the permalink toast and clears the interval. */
    method PollTick(t: Tick)
      modifies this
      requires Valid() && polling
      ensures Valid()
      ensures log == old(log) + TickEffects(old(job).value, t)
      ensures polling == !TickStopsPoll(t)
      ensures uploadStatus == TickStatus(old(uploadStatus), t)
      ensures tokenUri == (if TickStores(t) then t.arweaveUrl.value else old(tokenUri))
      ensures uploadMetadata == (if TickStores(t) then t.metadata else old(uploadMetadata))
      ensures request == old(request) && nftName == old(nftName) && description == old(description)
      ensures formError == old(formError) && job == old(job) && done == old(done) && minting == old(minting)
    {
      if t.report.None? {
        log := log + [Toast(Error, PermalinkFailed)];
        polling := false;
        return;
      }
      uploadStatus := "Transcoding...";
      if TranscodeFinished(t.report.value) {
        polling := false;
        uploadStatus := "Transcoding Complete...";
        var finalize := FinalizeUpload(job.value.uuid, job.value.description, job.value.name);
        if t.arweaveUrl.None? {
          log := log + [finalize, Toast(Error, PermalinkFailed)];
          return;
        }
        if t.metadata.None? {
          log := log + [finalize, FetchMetadata(t.arweaveUrl.value), Toast(Error, PermalinkFailed)];
          return;
        }
        log := log + [finalize, FetchMetadata(t.arweaveUrl.value)];
        tokenUri := t.arweaveUrl.value;
        uploadMetadata := t.metadata;
        uploadStatus := "";
      }
    }

    /** The interval firing once per tick until it is cleared: the ticks up
        to and including the first one that stops the poll are processed, in
        order, and the rest never run. */
    method RunPolling(ticks: seq<Tick>)
      modifies this
      requires Valid() && polling
      ensures Valid()
      ensures polling <==> FirstStop(ticks) == |ticks|
      ensures log == old(log) + RunEffects(old(job).value, ticks, Processed(ticks))
      ensures PollView(uploadStatus, tokenUri, uploadMetadata)
              == AfterTicks(PollView(old(uploadStatus), old(tokenUri), old(uploadMetadata)), ticks, Processed(ticks))
      ensures FinalizeCount(log) == FinalizeCount(old(log)) + FinalizingTicks(ticks, Processed(ticks))
      ensures FinalizeCount(log) <= FinalizeCount(old(log)) + 1
      ensures FinalizeCount(log) == FinalizeCount(old(log)) + 1 ==> !polling
      ensures request == old(request) && job == old(job) && done == old(done) && minting == old(minting)
      ensures nftName == old(nftName) && description == old(description) && formError == old(formError)
    {
      ghost var start := PollView(uploadStatus, tokenUri, uploadMetadata);
      var i := 0;
      while i < |ticks| && polling
        invariant 0 <= i <= Processed(ticks)
        invariant Valid()
        invariant polling <==> i <= FirstStop(ticks)
        invariant log == old(log) + RunEffects(old(job).value, ticks, i)
        invariant PollView(uploadStatus, tokenUri, uploadMetadata) == AfterTicks(start, ticks, i)
        invariant request == old(request) && job == old(job) && done == old(done) && minting == old(minting)
        invariant nftName == old(nftName) && description == old(description) && formError == old(formError)
        decreases |ticks| - i
      {
        StopStep(ticks, i);
        RunLogStep(old(log), job.value, ticks, i);
        PollTick(ticks[i]);
        i := i + 1;
      }
      StopEnd(ticks, i, polling);
      RunFinalizeTotal(old(log), job.value, ticks, i);
      RunFinalizeCount(ticks);
    }

    /** The mint button is on the page: metadata is in, the order is not yet
        delivered here, and there is a token URI. */
    predicate MintButtonShown()
      reads this
    {
      uploadMetadata.Some? && !done && tokenUri != ""
    }

    /** `extractEvent`: with a `DeliveredRequest` event that has arguments,
        read the token id by the request's version, fetch the NFT and mark the
        order done; reading the id may throw. Without the event nothing
        changes. */
    method ExtractEvent(receipt: Receipt, req: Request) returns (threw: bool)
      modifies this
      requires Valid()
      ensures Valid()
      ensures threw <==> DeliveredTokenId(receipt, req.version).Throws?
      ensures DeliveredTokenId(receipt, req.version).TokenId? ==>
        done && log == old(log) + [FetchNft(req.nftTokenAddress, DeliveredTokenId(receipt, req.version).id, tokenUri)]
      ensures !DeliveredTokenId(receipt, req.version).TokenId? ==> done == old(done) && log == old(log)
      ensures request == old(request) && nftName == old(nftName) && description == old(description)
      ensures formError == old(formError) && uploadStatus == old(uploadStatus) && job == old(job)
      ensures polling == old(polling) && tokenUri == old(tokenUri) && uploadMetadata == old(uploadMetadata)
      ensures minting == old(minting)
    {
      var read := DeliveredTokenId(receipt, req.version);
      threw := read.Throws?;
      if read.TokenId? {
        log := log + [FetchNft(req.nftTokenAddress, read.id, tokenUri)];
        done := true;
      }
    }

    /** What follows a mined transaction in `completeBooking`: read the
        event, ask for indexing and show the outcome; a throw on the way lands
        in the `catch`. */
    method Confirm(req: Request, txHash: string, receipt: Receipt, indexed: bool)
      modifies this
      requires Valid()
      ensures Valid()
      ensures log == old(log) + AfterDelivery(req, old(tokenUri), Some(txHash), Some(receipt), indexed)
      ensures minting == BookingSucceeds(req, Some(txHash), Some(receipt), indexed)
      ensures done == (old(done) || DeliveredTokenId(receipt, req.version).TokenId?)
      ensures request == old(request) && nftName == old(nftName) && description == old(description)
      ensures formError == old(formError) && uploadStatus == old(uploadStatus) && job == old(job)
      ensures polling == old(polling) && tokenUri == old(tokenUri) && uploadMetadata == old(uploadMetadata)
    {
      ghost var start := log;
      ghost var read := DeliveredTokenId(receipt, req.version);
      ghost var fetched := if read.TokenId? then [FetchNft(req.nftTokenAddress, read.id, tokenUri)] else [];
      var threw := ExtractEvent(receipt, req);
      assert log == start + fetched;
      if threw {
        minting := false;
        log := log + [Toast(Error, MintFailed)];
        assert log == start + (fetched + [Toast(Error, MintFailed)]);
        return;
      }
      log := log + [IndexRequest(txHash)];
      var last := if indexed then Toast(Success, MintSucceeded) else Toast(Error, MintFailed);
      minting := indexed;
      log := log + [last];
      assert log == start + (fetched + ([IndexRequest(txHash)] + [last]));
    }

    /** The `catch` of `completeBooking`: `minting` comes down and the
        failure toast is shown. */
    method MintFailedToast()
      modifies this
      requires Valid()
      ensures Valid()
      ensures log == old(log) + [Toast(Error, MintFailed)] && !minting
      ensures done == old(done)
      ensures request == old(request) && nftName == old(nftName) && description == old(description)
      ensures formError == old(formError) && uploadStatus == old(uploadStatus) && job == old(job)
      ensures polling == old(polling) && tokenUri == old(tokenUri) && uploadMetadata == old(uploadMetadata)
    {
      minting := false;
      log := log + [Toast(Error, MintFailed)];
    }

    /** The `try` block of `completeBooking` for a loaded request: `minting`
        goes up before the contract is called and comes down only on a
        failure. `txHash` is the transaction `deliverRequest` sends (`None`
        when the contract is missing or the call rejects), `receipt` what
        waiting on it gives, `indexed` whether indexing succeeds. */
    method Deliver(req: Request, txHash: Option<string>, receipt: Option<Receipt>, indexed: bool)
      modifies this
      requires Valid()
      ensures Valid()
      ensures log == old(log) + [DeliverRequest(ContractFor(req.id), req.requestId, ArweavePrefix + old(tokenUri))]
                     + AfterDelivery(req, old(tokenUri), txHash, receipt, indexed)
      ensures minting == BookingSucceeds(req, txHash, receipt, indexed)
      ensures done == (old(done) || (txHash.Some? && receipt.Some? && DeliveredTokenId(receipt.value, req.version).TokenId?))
      ensures request == old(request) && nftName == old(nftName) && description == old(description)
      ensures formError == old(formError) && uploadStatus == old(uploadStatus) && job == old(job)
      ensures polling == old(polling) && tokenUri == old(tokenUri) && uploadMetadata == old(uploadMetadata)
    {
      minting := true;
      log := log + [DeliverRequest(ContractFor(req.id), req.requestId, ArweavePrefix + tokenUri)];
      if txHash.None? || receipt.None? {
        MintFailedToast();
        return;
      }
      Confirm(req, txHash.value, receipt.value, indexed);
    }

    /** `completeBooking`: without a request, the reload toast and `minting`
        untouched; otherwise the `try` block. */
    method CompleteBooking(txHash: Option<string>, receipt: Option<Receipt>, indexed: bool)
      modifies this
      requires Valid()
      ensures Valid()
      ensures old(request).None? ==>
        log == old(log) + [Toast(Error, NoRequest)] && minting == old(minting) && done == old(done)
      ensures old(request).Some? ==>
        && log == old(log) + BookingEffects(old(request).value, old(tokenUri), txHash, receipt, indexed)
        && minting == BookingSucceeds(old(request).value, txHash, receipt, indexed)
        && done == (old(done) || (txHash.Some? && receipt.Some?
                                  && DeliveredTokenId(receipt.value, old(request).value.version).TokenId?))
      ensures request == old(request) && nftName == old(nftName) && description == old(description)
      ensures formError == old(formError) && uploadStatus == old(uploadStatus) && job == old(job)
      ensures polling == old(polling) && tokenUri == old(tokenUri) && uploadMetadata == old(uploadMetadata)
    {
      if request.None? {
        log := log + [Toast(Error, NoRequest)];
      } else {
        Deliver(request.value, txHash, receipt, indexed);
      }
    }

    /** Pressing "Mint and send NFT": only a shown button that `minting` does
        not disable runs `completeBooking`. */
    method PressMint(txHash: Option<string>, receipt: Option<Receipt>, indexed: bool)
      modifies this
      requires Valid()
      ensures Valid()
      ensures !(old(MintButtonShown()) && !old(minting)) ==> log == old(log) && minting == old(minting) && done == old(done)
      ensures old(MintButtonShown()) && !old(minting) && old(request).None? ==>
        log == old(log) + [Toast(Error, NoRequest)] && minting == old(minting) && done == old(done)
      ensures old(MintButtonShown()) && !old(minting) && old(request).Some? ==>
        && log == old(log) + BookingEffects(old(request).value, old(tokenUri), txHash, receipt, indexed)
        && minting == BookingSucceeds(old(request).value, txHash, receipt, indexed)
        && done == (txHash.Some? && receipt.Some?
                    && DeliveredTokenId(receipt.value, old(request).value.version).TokenId?)
      ensures request == old(request) && nftName == old(nftName) && description == old(description)
      ensures formError == old(formError) && uploadStatus == old(uploadStatus) && job == old(job)
      ensures polling == old(polling) && tokenUri == old(tokenUri) && uploadMetadata == old(uploadMetadata)
    {
      if MintButtonShown() && !minting {
        CompleteBooking(txHash, receipt, indexed);
      }
    }

    /** "New upload" sits beside the mint button, so it is on the page only
        when that button is, and `minting` disables it; pressing it drops the
        uploaded metadata. */
    method NewUpload()
      modifies this
      requires Valid()
      ensures Valid()
      ensures uploadMetadata == (if old(MintButtonShown()) && !old(minting) then None else old(uploadMetadata))
      ensures request == old(request) && nftName == old(nftName) && description == old(description)
      ensures formError == old(formError) && uploadStatus == old(uploadStatus) && job == old(job)
      ensures polling == old(polling) && tokenUri == old(tokenUri)
      ensures done == old(done) && minting == old(minting) && log == old(log)
    {
      if MintButtonShown() && !minting {
        uploadMetadata := None;
      }
    }
  }
}
