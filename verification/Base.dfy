/** Shared vocabulary: optional values, JSON values, and the hash functions every evidence
    structure is built over. */
module Base {

  datatype Option<+T> = None | Some(value: T) {
    function GetOr(default: T): T {
      if Some? then value else default
    }
  }

  datatype Result<+T, +E> = Ok(value: T) | Err(error: E)

  /** The member names of every JSON object the source hashes, as an enumeration: `PreviousHashKey` is
      "previous_hash", and so on. */
  datatype Key =
    | TimestampKey | ClientIdKey | ActionKey | TriggeredRuleKey | ReasonKey | ContentHashKey
    | PreviousHashKey | PolicyDigestKey | TenantIdKey | BindingKey | TraceIdKey | CommitmentKey
    | EpochKey | ChainLengthKey | HeadHashKey | AnchoredAtKey | PrevAnchorHashKey | GapKey
    | KindKey | CanonicalJsonKey
    | FromEpochKey | AttemptsKey | FirstAttemptKey | LastAttemptKey
    | ToolsKey | RulesKey | EngineKey | OpaPolicyKey
    | NameKey | PatternKey

  /** A JSON value. Objects are maps, so two objects with the same members are the same value:
      that is what `sort_keys=True` buys the source. */
  datatype Json =
    | Null
    | Bool(b: bool)
    | Str(s: string)
    | Int(n: int)
    | Real(x: real)
    | Arr(items: seq<Json>)
    | Obj(fields: map<Key, Json>)

  /** `json.dumps(..., sort_keys=True)` and hexadecimal SHA-256, both left uninterpreted. */
  datatype Hashing = Hashing(dumps: Json -> string, sha: string -> string) {
    function OfText(text: string): string {
      sha(text)
    }

    function OfJson(j: Json): string {
      sha(dumps(j))
    }
  }

  /** Two different JSON values with one digest. Results below never assume that none exists; they
      name the two values, taken from the evidence at hand, that would have to collide. */
  predicate Collision(h: Hashing, a: Json, b: Json) {
    a != b && h.OfJson(a) == h.OfJson(b)
  }

  /** Python's truth value of an optional string: absent and empty are both false. */
  predicate Truthy(o: Option<string>) {
    o.Some? && o.value != ""
  }

  function JsonOfOption(o: Option<string>): Json {
    if o.Some? then Str(o.value) else Null
  }

  /** What n sinks hold before anything is offered to them. */
  function Empties<T>(n: nat): (logs: seq<seq<T>>)
    ensures |logs| == n && forall j | 0 <= j < n :: logs[j] == []
  {
    if n == 0 then [] else Empties(n - 1) + [[]]
  }

  const EIGHT_ZEROS := "00000000"

  /** The all-zero digest every chain starts from. */
  const GENESIS := EIGHT_ZEROS + EIGHT_ZEROS + EIGHT_ZEROS + EIGHT_ZEROS
                   + EIGHT_ZEROS + EIGHT_ZEROS + EIGHT_ZEROS + EIGHT_ZEROS

  lemma GenesisIsZeros()
    ensures |GENESIS| == 64 && forall i | 0 <= i < 64 :: GENESIS[i] == '0'
  {
    forall i | 0 <= i < 64 ensures GENESIS[i] == '0' { assert GENESIS[i] == EIGHT_ZEROS[i % 8]; }
  }
}
