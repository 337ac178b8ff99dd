/** `dtp_recv` and the codes it returns (src/ffi.rs), on a 64-bit target. */
module Recv {
  import opened Bytes
  import opened Ints

  datatype QuicheError =
    | Done
    | BufferTooShort
    | UnknownVersion
    | InvalidFrame
    | InvalidPacket
    | InvalidState
    | InvalidStreamState
    | InvalidTransportParam
    | CryptoFail
    | TlsFail
    | FlowControl
    | StreamLimit
    | FinalSize
    | CongestionControl
    | StreamStopped
    | StreamReset

  function ErrorToC(e: QuicheError): int {
    match e
    case Done => -1
    case BufferTooShort => -2
    case UnknownVersion => -3
    case InvalidFrame => -4
    case InvalidPacket => -5
    case InvalidState => -6
    case InvalidStreamState => -7
    case InvalidTransportParam => -8
    case CryptoFail => -9
    case TlsFail => -10
    case FlowControl => -11
    case StreamLimit => -12
    case FinalSize => -13
    case CongestionControl => -14
    case StreamStopped => -15
    case StreamReset => -16
  }

  const DTP_CLOSED := -22
  const DTP_NOT_ESTABLISHED := -42
  const DTP_NULL := -404

  /** What `stream_recv` answers for one stream. */
  datatype StreamRecv = Received(read: nat, fin: bool) | Error(e: QuicheError)

  /** A readable stream and the answer it will give. */
  datatype Readable = Readable(sid: nat, answer: StreamRecv)

  datatype Conn = Conn(closed: bool, established: bool, earlyData: bool, readable: seq<Readable>)

  /** The pointer arguments; a null one is None. `streamId` and `fin` hold what the caller put there. */
  datatype Args = Args(conn: Option<Conn>, streamId: Option<int>, fin: Option<bool>, buflen: int)

  /** The first stream that has an answer other than `Done`. */
  function FirstReady(readable: seq<Readable>): (i: nat)
    ensures i <= |readable|
    ensures forall j :: 0 <= j < i ==> readable[j].answer == Error(Done)
    ensures i < |readable| ==> readable[i].answer != Error(Done)
  {
    if readable == [] || readable[0].answer != Error(Done) then 0 else 1 + FirstReady(readable[1..])
  }

  /** What a call has to tell its caller. */
  datatype Report = Null | Closed | NotEstablished | Count(n: nat) | Failure(e: QuicheError)

  function ReportOf(args: Args): Report {
    if args.conn == None || args.streamId == None || args.fin == None then Null
    else
      var conn := args.conn.value;
      if conn.closed then Closed
      else if !conn.established && !conn.earlyData then NotEstablished
      else
        var i := FirstReady(conn.readable);
        if i == |conn.readable| then Count(0)
        else
          match conn.readable[i].answer
          case Received(read, _) => Count(read)
          case Error(e) => Failure(e)
  }

  /** The stream whose answer is reported, when it delivered bytes or its end. */
  function Delivered(args: Args): Option<(int, bool)> {
    if !ReportOf(args).Count? then None
    else
      var readable := args.conn.value.readable;
      var i := FirstReady(readable);
      if i == |readable| then None else Some((WrapI32(readable[i].sid), readable[i].answer.fin))
  }

  const ERRORS := [Done, BufferTooShort, UnknownVersion, InvalidFrame, InvalidPacket, InvalidState,
                   InvalidStreamState, InvalidTransportParam, CryptoFail, TlsFail, FlowControl, StreamLimit,
                   FinalSize, CongestionControl, StreamStopped, StreamReset]

  /** How a caller reads a code back. */
  function Decode(code: int): Option<Report> {
    if code >= 0 then Some(Count(code))
    else if code == DTP_NULL then Some(Null)
    else if code == DTP_CLOSED then Some(Closed)
    else if code == DTP_NOT_ESTABLISHED then Some(NotEstablished)
    else if -16 <= code then Some(Failure(ERRORS[-code - 1]))
    else None
  }

  /** The slice has `buflen` bytes, and quiche never reads more than fits. */
  ghost predicate WellBehaved(args: Args) {
    && 0 <= args.buflen <= I32_MAX
    && (args.conn.Some? ==>
          forall i :: 0 <= i < |args.conn.value.readable| && args.conn.value.readable[i].answer.Received? ==>
                        args.conn.value.readable[i].answer.read <= args.buflen)
  }

  /** `enum quiche_error` of the header an application compiles against. */
  function HeaderCode(e: QuicheError): int {
    match e
    case Done => -1
    case BufferTooShort => -2
    case UnknownVersion => -3
    case InvalidFrame => -4
    case InvalidPacket => -5
    case InvalidState => -6
    case InvalidStreamState => -7
    case InvalidTransportParam => -8
    case CryptoFail => -9
    case TlsFail => -10
    case FlowControl => -11
    case StreamLimit => -12
    case StreamStopped => -15
    case StreamReset => -16
    case FinalSize => -13
    case CongestionControl => -14
  }

  /** Every code is the one the header names, and reads back as its error. */
  lemma ErrorsDecode(e: QuicheError)
    ensures ErrorToC(e) == HeaderCode(e)
    ensures Decode(ErrorToC(e)) == Some(Failure(e))
    ensures ErrorToC(e) == -1 <==> e == Done
    ensures IsI32(ErrorToC(e))
  {
  }

  /** All streams before this one answered `Done`. */
  ghost predicate DoneBefore(readable: seq<Readable>, i: nat)
    requires i <= |readable|
  {
    forall j :: 0 <= j < i ==> readable[j].answer == Error(Done)
  }

  /** The stream id as the caller's 32-bit variable holds it. */
  ghost predicate SameLow32(sid: int, reported: int) {
    IsI32(reported) && (sid - reported) % 0x1_0000_0000 == 0
  }

  /** What the call gives back on account of one stream's answer. */
  ghost predicate ReportsOne(args: Args, one: Readable, code: int, streamId: Option<int>, fin: Option<bool>) {
    match one.answer
    case Received(n, f) => code == n && streamId.Some? && SameLow32(one.sid, streamId.value) && fin == Some(f)
    case Error(e) => code == HeaderCode(e) && streamId == args.streamId && fin == args.fin
  }

  /** What a connection that can be read from gives back, told stream by stream. */
  ghost predicate Reports(args: Args, readable: seq<Readable>, code: int, streamId: Option<int>, fin: Option<bool>) {
    && (forall i :: 0 <= i < |readable| && DoneBefore(readable, i) && readable[i].answer != Error(Done) ==>
          ReportsOne(args, readable[i], code, streamId, fin))
    && (DoneBefore(readable, |readable|) ==> code == 0 && streamId == args.streamId && fin == args.fin)
  }

  /** There is one first answer that is not `Done`. */
  lemma ReportsFirst(args: Args, readable: seq<Readable>, i: nat, code: int, streamId: Option<int>, fin: Option<bool>)
    requires i <= |readable| && DoneBefore(readable, i)
    requires if i < |readable|
             then readable[i].answer != Error(Done) && ReportsOne(args, readable[i], code, streamId, fin)
             else code == 0 && streamId == args.streamId && fin == args.fin
    ensures Reports(args, readable, code, streamId, fin)
    ensures i == FirstReady(readable)
  {
    assert forall j :: i < j <= |readable| ==> !DoneBefore(readable, j);
  }

  /**
    * Whatever the readable streams answer, the code decodes to the report: leading `Done` streams are
    * skipped, the casts change nothing, and no count, quiche error or API error is mistaken for
    * another. The out-parameters are written exactly when a stream delivered something.
    */
  method DtpRecv(args: Args) returns (code: int, streamId: Option<int>, fin: Option<bool>)
    requires WellBehaved(args)
    ensures Decode(code) == Some(ReportOf(args))
    ensures IsI32(code) && code <= args.buflen && code != -1
    ensures match Delivered(args)
            case None => streamId == args.streamId && fin == args.fin
            case Some((s, f)) => streamId == Some(s) && fin == Some(f)
    ensures code == -404 <==> args.conn == None || args.streamId == None || args.fin == None
    ensures code != -404 ==>
              var conn := args.conn.value;
              && (code == -22 <==> conn.closed)
              && (code == -42 <==> !conn.closed && !conn.established && !conn.earlyData)
              && (code in {-22, -42} ==> streamId == args.streamId && fin == args.fin)
              && (code !in {-22, -42} ==> Reports(args, conn.readable, code, streamId, fin))
  {
    streamId, fin := args.streamId, args.fin;
    if args.conn == None || args.streamId == None || args.fin == None {
      return DTP_NULL, streamId, fin;
    }
    var conn := args.conn.value;
    if conn.closed {
      return DTP_CLOSED, streamId, fin;
    } else if !conn.established && !conn.earlyData {
      return DTP_NOT_ESTABLISHED, streamId, fin;
    }
    var ret := 0;
    var readable := conn.readable;
    var i := 0;
    while i < |readable|
      invariant 0 <= i <= |readable| && ret == 0
      invariant streamId == args.streamId && fin == args.fin
      invariant DoneBefore(readable, i)
    {
      match readable[i].answer {
        case Received(read, finish) =>
          streamId := Some(WrapI32(readable[i].sid));
          fin := Some(finish);
          ret := read;
          break;
        case Error(e) =>
          if e != Done {
            ErrorsDecode(e);
            ret := AsUsize(ErrorToC(e));
            CastsPreserve(ErrorToC(e));
            break;
          }
      }
      i := i + 1;
    }
    ReportsFirst(args, readable, i, WrapI32(ret), streamId, fin);
    return WrapI32(ret), streamId, fin;
  }

  /**
    * The reported stream id is the stream's own exactly below 2^31, and two streams are reported
    * alike exactly when their ids agree in the low 32 bits.
    */
  lemma StreamIdExactIff(sid: nat, other: nat)
    ensures WrapI32(sid) == sid <==> sid < TWO_31
    ensures WrapI32(sid) == WrapI32(other) <==> (sid - other) % TWO_32 == 0
  {
    WrapEqualIff(sid, other);
  }

  /**
    * What a count tells the caller: more than zero, that a stream delivered; zero, nothing. It
    * stands for no answer but `Done` from any stream, or for a delivery of no bytes.
    */
  lemma NothingDeliveredIff(a: Args)
    requires ReportOf(a).Count?
    ensures var readable := a.conn.value.readable;
            Delivered(a) == None <==> forall i :: 0 <= i < |readable| ==> readable[i].answer == Error(Done)
    ensures ReportOf(a).n > 0 ==> Delivered(a).Some?
  {
    var i := FirstReady(a.conn.value.readable);
    assert i < |a.conn.value.readable| ==> a.conn.value.readable[i].answer != Error(Done);
  }

  /** Zero also stands for "nothing readable": it does not say that a stream delivered its end. */
  lemma ZeroIsAmbiguous()
    ensures exists a: Args, b: Args ::
              WellBehaved(a) && WellBehaved(b) && ReportOf(a) == Count(0) == ReportOf(b)
              && Delivered(a) == None && Delivered(b) == Some((4, true))
  {
    var a := Args(Some(Conn(false, true, false, [])), Some(0), Some(false), 10);
    var b := a.(conn := Some(Conn(false, true, false, [Readable(4, Received(0, true))])));
    assert Delivered(b) == Some((4, true));
    assert WellBehaved(a) && WellBehaved(b) && Delivered(a) == None;
  }
}
