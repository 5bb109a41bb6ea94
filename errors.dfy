/**
 * The invoker's error codes and PermissionDeniedException, whose payload
 * map is filled from an explicit map or from alternating key/value
 * arguments.
 */
module Errors {
  import opened Common

  /** The error codes of the invoker, global and function-specific. */
  datatype ErrorCode =
    | AccessDenied | InvalidInputValue | InternalServerError
    | FunctionNotFound | InvokePermissionDenied | QuotaExceeded | ContainerInitTimeout

  function HttpStatus(e: ErrorCode): int {
    match e
    case AccessDenied => 403
    case InvalidInputValue => 400
    case InternalServerError => 500
    case FunctionNotFound => 404
    case InvokePermissionDenied => 403
    case QuotaExceeded => 429
    case ContainerInitTimeout => 503
  }

  function Code(e: ErrorCode): string {
    match e
    case AccessDenied => "G-403"
    case InvalidInputValue => "G-400"
    case InternalServerError => "G-500"
    case FunctionNotFound => "F-001"
    case InvokePermissionDenied => "F-002"
    case QuotaExceeded => "F-003"
    case ContainerInitTimeout => "F-004"
  }

  /** The human-readable message of each code (Korean in the system). */
  function Message(e: ErrorCode): string {
    match e
    case AccessDenied => "접근 권한이 없습니다."
    case InvalidInputValue => "입력값이 올바르지 않습니다."
    case InternalServerError => "서버 내부 오류입니다."
    case FunctionNotFound => "존재하지 않는 함수입니다."
    case InvokePermissionDenied => "함수 실행 권한이 없습니다."
    case QuotaExceeded => "실행 할당량을 초과했습니다."
    case ContainerInitTimeout => "컨테이너 초기화 시간이 초과되었습니다. 잠시 후 다시 시도해주세요."
  }

  /** Every error code is identified by its code string. */
  lemma CodeInjective(a: ErrorCode, b: ErrorCode)
    requires Code(a) == Code(b)
    ensures a == b
  {
    assert Code(a)[0] == Code(b)[0] && Code(a)[2..] == Code(b)[2..];
  }

  /** Permission and timeout failures reach the client as 403 and 503. */
  lemma InvokeFailureStatuses()
    ensures HttpStatus(InvokePermissionDenied) == 403 && Code(InvokePermissionDenied) == "F-002"
    ensures HttpStatus(ContainerInitTimeout) == 503 && Code(ContainerInitTimeout) == "F-004"
  {
  }

  /** A payload argument (an arbitrary Java object). */
  datatype Arg = Null | Str(s: string) | Num(n: int) | Flag(b: bool)

  /** String.valueOf. */
  function ValueOf(a: Arg): string {
    match a
    case Null => "null"
    case Str(s) => s
    case Num(n) => IntToString(n)
    case Flag(b) => if b then "true" else "false"
  }

  /** The payload built from alternating keys and values, later pairs overwriting earlier ones. */
  function PairsToMap(kv: seq<Arg>): map<string, Arg>
    requires |kv| % 2 == 0
  {
    if |kv| == 0 then map[]
    else PairsToMap(kv[..|kv| - 2])[ValueOf(kv[|kv| - 2]) := kv[|kv| - 1]]
  }

  /** The payload's keys are exactly the rendered keys of the pairs. */
  lemma {:induction false} PairsToMapKeys(kv: seq<Arg>)
    requires |kv| % 2 == 0
    ensures PairsToMap(kv).Keys == set i | 0 <= i < |kv| / 2 :: ValueOf(kv[2 * i])
  {
    if |kv| > 0 {
      var front := kv[..|kv| - 2];
      PairsToMapKeys(front);
      var n := |kv| / 2;
      forall k | k in PairsToMap(kv).Keys
        ensures exists i :: 0 <= i < n && k == ValueOf(kv[2 * i])
      {
        if k != ValueOf(kv[|kv| - 2]) {
          var i :| 0 <= i < |front| / 2 && k == ValueOf(front[2 * i]);
          assert front[2 * i] == kv[2 * i];
          assert 0 <= i < n && k == ValueOf(kv[2 * i]);
        } else {
          assert 2 * (n - 1) == |kv| - 2;
          assert 0 <= n - 1 < n && k == ValueOf(kv[2 * (n - 1)]);
        }
      }
      forall i | 0 <= i < n
        ensures ValueOf(kv[2 * i]) in PairsToMap(kv).Keys
      {
        if i < n - 1 {
          assert front[2 * i] == kv[2 * i];
          assert ValueOf(front[2 * i]) in PairsToMap(front).Keys;
        }
      }
    }
  }

  /** The value stored under pair i's key is pair i's value unless a later pair has the same key. */
  lemma {:induction false} PairsToMapLastWins(kv: seq<Arg>, i: nat)
    requires |kv| % 2 == 0 && i < |kv| / 2
    requires forall j :: i < j < |kv| / 2 ==> ValueOf(kv[2 * j]) != ValueOf(kv[2 * i])
    ensures ValueOf(kv[2 * i]) in PairsToMap(kv)
    ensures PairsToMap(kv)[ValueOf(kv[2 * i])] == kv[2 * i + 1]
  {
    var n := |kv| / 2;
    if i < n - 1 {
      var front := kv[..|kv| - 2];
      assert front[2 * i] == kv[2 * i] && front[2 * i + 1] == kv[2 * i + 1];
      forall j | i < j < |front| / 2
        ensures ValueOf(front[2 * j]) != ValueOf(front[2 * i])
      {
        assert front[2 * j] == kv[2 * j];
      }
      PairsToMapLastWins(front, i);
      assert ValueOf(kv[2 * (n - 1)]) != ValueOf(kv[2 * i]);
      assert 2 * (n - 1) == |kv| - 2;
    } else {
      assert 2 * i == |kv| - 2;
    }
  }

  /** PermissionDeniedException: an error code, its message, and a payload map. */
  class PermissionDeniedException {
    const errorCode: ErrorCode
    const message: string
    var payload: map<string, Arg>

    /** The constructor taking only an error code: empty payload. */
    constructor (errorCode: ErrorCode)
      ensures this.errorCode == errorCode && message == Message(errorCode)
      ensures payload == map[]
    {
      this.errorCode := errorCode;
      this.message := Message(errorCode);
      this.payload := map[];
    }

    /** The map constructor: copies every entry; a null map leaves the payload empty. */
    constructor WithMap(errorCode: ErrorCode, given: Option<map<string, Arg>>)
      ensures this.errorCode == errorCode && message == Message(errorCode)
      ensures payload == if given.Some? then given.value else map[]
    {
      this.errorCode := errorCode;
      this.message := Message(errorCode);
      this.payload := map[];
      new;
      if given.Some? {
        payload := payload + given.value;
      }
    }

    /** Adds one entry (HashMap.put). */
    method Put(key: string, value: Arg)
      modifies this
      ensures payload == old(payload)[key := value]
    {
      payload := payload[key := value];
    }
  }

  /**
   * The key/value constructor: an odd number of arguments is refused
   * (IllegalArgumentException); otherwise each pair puts
   * String.valueOf(key) -> value, in order.
   */
  method WithKeyValues(errorCode: ErrorCode, keyValues: seq<Arg>) returns (r: Result<PermissionDeniedException, string>)
    ensures r.Err? <==> |keyValues| % 2 != 0
    ensures r.Err? ==> r.error == "Key-Value pairs must be even."
    ensures r.Ok? ==> fresh(r.value) && r.value.errorCode == errorCode && r.value.message == Message(errorCode)
    ensures r.Ok? ==> r.value.payload == PairsToMap(keyValues)
  {
    var e := new PermissionDeniedException(errorCode);
    if |keyValues| % 2 != 0 {
      return Err("Key-Value pairs must be even.");
    }
    var i := 0;
    while i < |keyValues|
      invariant 0 <= i <= |keyValues| && i % 2 == 0
      invariant e.payload == PairsToMap(keyValues[..i])
    {
      assert keyValues[..i + 2][..i] == keyValues[..i];
      e.Put(ValueOf(keyValues[i]), keyValues[i + 1]);
      i := i + 2;
    }
    assert keyValues[..i] == keyValues;
    r := Ok(e);
  }
}
