/** Values shared by every component: options, failures, operation results and
    the ABI status codes of rust/core-bridge/src/abi.rs. */
module Common {
  datatype Option<+T> = None | Some(value: T)

  const STATUS_PANIC := 3
  const STATUS_INTERNAL := 4
  const STATUS_INVALID_STATE := 5
  const STATUS_CONFIGURATION := 6
  const STATUS_CONNECTION := 7
  const STATUS_WORKER := 8
  const STATUS_OUTSTANDING_TASKS := 9
  const STATUS_NOT_READY := 10
  const STATUS_PROTOCOL := 11
  const STATUS_ALREADY_STARTED := 12
  const STATUS_ASYNC_HEARTBEAT_REJECTED := 14
  const STATUS_RESOURCE_EXHAUSTED := 15

  datatype Failure = Failure(status: nat, message: string)

  /** The result of one bridge operation: encoded bytes or a typed failure. */
  datatype Operation = Ok(body: string) | Err(failure: Failure)

  lemma SubsetSize<T>(a: set<T>, b: set<T>)
    requires a <= b
    ensures |a| <= |b|
    ensures |a| == |b| ==> a == b
  {
    if y :| y in a {
      SubsetSize(a - {y}, b - {y});
    }
  }

  function One(b: bool): nat {
    if b then 1 else 0
  }

  lemma AddSize<T>(s: set<T>, x: T)
    ensures |s + {x}| == |s| + One(x !in s)
  {
    if x in s {
      assert s + {x} == s;
    }
  }

  lemma RemoveSize<T>(s: set<T>, x: T)
    ensures |s - {x}| == |s| - One(x in s)
  {
    if x !in s {
      assert s - {x} == s;
    }
  }

  /** Bytes of a string in UTF-8. */
  function Utf8Length(s: string): nat {
    if s == "" then 0
    else
      var c := s[0] as int;
      (if c < 0x80 then 1 else if c < 0x800 then 2 else if c < 0x10000 then 3 else 4) + Utf8Length(s[1..])
  }

  const MAX_STRING_BYTES := 65_536

  predicate ValidIdentifier(s: string) {
    s != "" && Utf8Length(s) <= MAX_STRING_BYTES && '\0' !in s
  }

  /** What was in a queue, with what came, is what left it, with what is in it. */
  lemma QueueMoves<T>(came: seq<T>, left: seq<T>, queue: seq<T>, newcomers: seq<T>, leavers: seq<T>, after: seq<T>)
    requires came == left + queue && queue + newcomers == leavers + after
    ensures came + newcomers == (left + leavers) + after
  {
    assert came + newcomers == left + (queue + newcomers);
    assert left + (leavers + after) == (left + leavers) + after;
  }
}
