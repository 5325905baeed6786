/**
 The response envelope of the services: the table of status codes with its
 code index, and the `ApiResult` record with its defaults and factories.
 */
module Dto {
  import opened Values

  /** The coarse class of a status. */
  datatype Series = SuccessfulSeries | ClientErrorSeries | ServerErrorSeries

  /** The status table, in declaration order. */
  datatype ApiStatus =
    | Successful | ClientError | ParameterError | VerificationError | FileValidationError
    | FileExtensionNotSupported | EmptyUploadFile | LoginException | AuthorizationException
    | PermissionDenied | UploadException | Failed | TimeOut | ResourceNotFound | EmptyDataset
  {
    /** The code: a letter for the class (`0` for success), then four digits. */
    function Code(): (c: string)
      ensures |c| == 5
      ensures c[0] == '0' || c[0] == 'A' || c[0] == 'B' || c[0] == 'C'
      ensures '0' <= c[1] <= '9' && '0' <= c[2] <= '9' && '0' <= c[3] <= '9' && '0' <= c[4] <= '9'
    {
      match this
      case Successful => "00000"
      case ClientError => "A0001"
      case ParameterError => "A0100"
      case VerificationError => "A0101"
      case FileValidationError => "A0102"
      case FileExtensionNotSupported => "A0103"
      case EmptyUploadFile => "A0104"
      case LoginException => "A0200"
      case AuthorizationException => "A0300"
      case PermissionDenied => "A0301"
      case UploadException => "A0400"
      case Failed => "B0001"
      case TimeOut => "B0100"
      case ResourceNotFound => "B0200"
      case EmptyDataset => "C0001"
    }

    /** `ordinal()`: the position in the declaration. */
    function Ordinal(): nat
    {
      match this
      case Successful => 0
      case ClientError => 1
      case ParameterError => 2
      case VerificationError => 3
      case FileValidationError => 4
      case FileExtensionNotSupported => 5
      case EmptyUploadFile => 6
      case LoginException => 7
      case AuthorizationException => 8
      case PermissionDenied => 9
      case UploadException => 10
      case Failed => 11
      case TimeOut => 12
      case ResourceNotFound => 13
      case EmptyDataset => 14
    }

    /** The series follows the code's first letter: `A` for client errors, `B` for server errors,
        `0` and `C` for the successful ones. */
    function Series(): (s: Series)
      ensures s == ClientErrorSeries <==> Code()[0] == 'A'
      ensures s == ServerErrorSeries <==> Code()[0] == 'B'
      ensures s == SuccessfulSeries <==> Code()[0] == '0' || Code()[0] == 'C'
    {
      match this
      case Successful | EmptyDataset => SuccessfulSeries
      case Failed | TimeOut | ResourceNotFound => ServerErrorSeries
      case _ => ClientErrorSeries
    }

    /** The reason phrase; never empty. */
    function Reason(): (r: string)
      ensures |r| > 0
    {
      match this
      case Successful => "Success"
      case ClientError => "Client Error"
      case ParameterError => "Request Parameter Error"
      case VerificationError => "Parameter Verification Error"
      case FileValidationError => "File Validation Error"
      case FileExtensionNotSupported => "Unsupported File Extension"
      case EmptyUploadFile => "Empty Upload File"
      case LoginException => "Login Exception"
      case AuthorizationException => "Authorization Exception"
      case PermissionDenied => "Permission Denied"
      case UploadException => "File Upload Exception"
      case Failed => "System Error"
      case TimeOut => "Execution Timeout"
      case ResourceNotFound => "Resource Not Found"
      case EmptyDataset => "No Data"
    }
  }

  /** `values()`: every status once, in declaration order. */
  function AllStatuses(): (all: seq<ApiStatus>)
    ensures |all| == 15
    ensures forall st: ApiStatus :: st.Ordinal() < 15 && all[st.Ordinal()] == st
  {
    [Successful, ClientError, ParameterError, VerificationError, FileValidationError,
     FileExtensionNotSupported, EmptyUploadFile, LoginException, AuthorizationException,
     PermissionDenied, UploadException, Failed, TimeOut, ResourceNotFound, EmptyDataset]
  }

  /** No two statuses share a code. */
  lemma CodesDistinct(a: ApiStatus, b: ApiStatus)
    requires a.Code() == b.Code()
    ensures a == b
  {
  }

  /** The static block's loop: each status of `statuses`, in order, put under its code. Since the
      codes are distinct, no later status overwrites an earlier one and every status is kept. */
  function IndexOf(statuses: seq<ApiStatus>): (index: map<string, ApiStatus>)
    ensures forall c :: c in index ==> index[c].Code() == c && index[c] in statuses
    ensures forall st :: st in statuses ==> st.Code() in index && index[st.Code()] == st
    decreases |statuses|
  {
    if statuses == [] then map[]
    else
      var init := statuses[..|statuses| - 1];
      var last := statuses[|statuses| - 1];
      assert forall st :: st in statuses ==> st in init || st == last;
      assert forall st :: st in init && st.Code() == last.Code() ==> st == last by {
        forall st | st in init && st.Code() == last.Code() ensures st == last {
          CodesDistinct(st, last);
        }
      }
      IndexOf(init)[last.Code() := last]
  }

  /** `CODE_INDEX`. */
  function CodeIndex(): (index: map<string, ApiStatus>)
    ensures forall st: ApiStatus :: st.Code() in index && index[st.Code()] == st
    ensures forall c :: c in index ==> index[c].Code() == c
  {
    var all := AllStatuses();
    assert forall st: ApiStatus :: st in all by {
      forall st: ApiStatus ensures st in all {
        assert all[st.Ordinal()] == st;
      }
    }
    IndexOf(all)
  }

  /** `fromCode`: no status for a `null` code, the status with that code, or none for an unknown code. */
  function FromCode(code: Option<string>): (r: Option<ApiStatus>)
    ensures code.None? ==> r.None?
    ensures r.Some? ==> code == Some(r.value.Code())
    ensures code.Some? && r.None? ==> forall st: ApiStatus :: st.Code() != code.value
  {
    if code.None? then None
    else if code.value in CodeIndex() then Some(CodeIndex()[code.value])
    else None
  }

  /** Every status is found again from its code. */
  lemma FromCodeRoundTrip(st: ApiStatus)
    ensures FromCode(Some(st.Code())) == Some(st)
  {
  }

  /** A code yields no status exactly when no status has that code. */
  lemma UnknownCode(c: string)
    ensures FromCode(Some(c)) == None <==> forall st: ApiStatus :: st.Code() != c
  {
    if exists st: ApiStatus :: st.Code() == c {
      var st: ApiStatus :| st.Code() == c;
      FromCodeRoundTrip(st);
    }
  }

  /** A point in time; the record's `LocalDateTime`. */
  type Time = int

  /** `ApiResult<T>`: `null` code or message stay `None`; `data` is never `Null` once built. */
  datatype ApiResult = ApiResult(code: Option<string>, message: Option<string>, data: Value, time: Time)
  {
    /** `getSize`: a collection's size, 1 for any other non-null value, 0 for `null`. */
    function Size(): (n: nat)
      ensures data.Collection? ==> n == data.size
      ensures !data.Collection? ==> (n == 1 <==> !data.Null?) && (n == 0 <==> data.Null?)
    {
      match data
      case Collection(size) => size
      case Null => 0
      case _ => 1
    }
  }

  /** The compact constructor: `null` data becomes the empty list and a `null` time becomes `now`. */
  function NewApiResult(code: Option<string>, message: Option<string>, data: Value, time: Option<Time>, now: Time)
    : (r: ApiResult)
    ensures r.code == code && r.message == message
    ensures !r.data.Null?
    ensures data.Null? ==> r.data == Collection(0)
    ensures !data.Null? ==> r.data == data
    ensures r.time == if time.Some? then time.value else now
  {
    ApiResult(code, message, if data.Null? then Collection(0) else data, if time.Some? then time.value else now)
  }

  /** Once built, the size never comes from the `null` branch: `null` data counts as an empty list. */
  lemma SizeAfterConstruction(code: Option<string>, message: Option<string>, data: Value, time: Option<Time>, now: Time)
    ensures var r := NewApiResult(code, message, data, time, now);
            && (data.Null? ==> r.Size() == 0)
            && (data.Collection? ==> r.Size() == data.size)
            && (!data.Null? && !data.Collection? ==> r.Size() == 1)
  {
  }

  /** `of(code, message, data)`, stamped with the clock reading `now`. */
  function Of(code: Option<string>, message: Option<string>, data: Value, now: Time): (r: ApiResult)
    ensures r.code == code && r.message == message && r.time == now
    ensures !data.Null? ==> r.data == data
    ensures data.Null? ==> r.data == Collection(0)
  {
    NewApiResult(code, message, data, Some(now), now)
  }

  /** `of(status, data)`: the status's code and reason. */
  function OfStatus(status: ApiStatus, data: Value, now: Time): (r: ApiResult)
    ensures r.code == Some(status.Code()) && FromCode(r.code) == Some(status)
    ensures r.message == Some(status.Reason()) && r.time == now
    ensures !data.Null? ==> r.data == data
    ensures data.Null? ==> r.data == Collection(0)
  {
    FromCodeRoundTrip(status);
    Of(Some(status.Code()), Some(status.Reason()), data, now)
  }

  /** `ok()`. */
  function Ok(now: Time): (r: ApiResult)
    ensures r.code == Some("00000") && r.message == Some("Success") && r.time == now
    ensures r.data == Collection(0) && r.Size() == 0
  {
    OfStatus(Successful, Collection(0), now)
  }

  /** `ok(data)`. */
  function OkData(data: Value, now: Time): (r: ApiResult)
    ensures r.code == Some("00000") && r.message == Some("Success") && r.time == now
    ensures !data.Null? ==> r.data == data
    ensures data.Null? ==> r.data == Collection(0)
  {
    OfStatus(Successful, data, now)
  }

  /** `ok(message, data)`: the success code with the caller's message. */
  function OkMessage(message: Option<string>, data: Value, now: Time): (r: ApiResult)
    ensures r.code == Some("00000") && r.message == message && r.time == now
    ensures !data.Null? ==> r.data == data
    ensures data.Null? ==> r.data == Collection(0)
  {
    Of(Some(Successful.Code()), message, data, now)
  }

  /** `fail()`. */
  function Fail(now: Time): (r: ApiResult)
    ensures r.code == Some("B0001") && r.message == Some("System Error") && r.time == now
    ensures r.data == Collection(0) && r.Size() == 0
  {
    assert Failed.Code() == "B0001" && Failed.Reason() == "System Error";
    OfStatus(Failed, Collection(0), now)
  }

  /** `fail(message)`: the failure code with the caller's message and no data. */
  function FailMessage(message: Option<string>, now: Time): (r: ApiResult)
    ensures r.code == Some("B0001") && r.message == message && r.time == now
    ensures r.data == Collection(0)
  {
    Of(Some(Failed.Code()), message, Collection(0), now)
  }

  /** `fail(message, data)`: the failure code with the caller's message and data. */
  function FailMessageData(message: Option<string>, data: Value, now: Time): (r: ApiResult)
    ensures r.code == Some("B0001") && r.message == message && r.time == now
    ensures !data.Null? ==> r.data == data
    ensures data.Null? ==> r.data == Collection(0)
  {
    Of(Some(Failed.Code()), message, data, now)
  }

  /** Whatever the message and data, the `ok` factories answer with a status of the successful
      series and the `fail` factories with a server error. */
  lemma FactoriesCarryTheirSeries(message: Option<string>, data: Value, now: Time)
    ensures FromCode(Ok(now).code) == Some(Successful) && Successful.Series() == SuccessfulSeries
    ensures FromCode(OkData(data, now).code) == Some(Successful)
    ensures FromCode(OkMessage(message, data, now).code) == Some(Successful)
    ensures FromCode(Fail(now).code) == Some(Failed) && Failed.Series() == ServerErrorSeries
    ensures FromCode(FailMessage(message, now).code) == Some(Failed)
    ensures FromCode(FailMessageData(message, data, now).code) == Some(Failed)
  {
    FromCodeRoundTrip(Successful);
    FromCodeRoundTrip(Failed);
  }
}
