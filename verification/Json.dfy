/** JSON values as the artifacts use them. A string is a word: one of the vocabulary of the registration contracts,
    or any other text. */
module Json {
  import opened Text
  import Registration

  datatype Word =
    // object keys
    | SchemaVersion | RunId | RuntimeProfile | ExpectedAgents | StartedAt | TimeoutSeconds
    | Backoff | MinSeconds | MaxSeconds | LastVerdictAt | LastStatus | AttemptCount
    | StatusKey | ChecksKey | FailedChecksKey | TaxonomyKey | Surfaces | PerAgentKey | CapturedAt | SnapshotKey
    | SupportKey | MutationSupport | ScenariosKey | SessionSupport | TopologyKey
    | AgentId | StatesKey | HighestState | Attempt | PhaseKey | CodeKey | SeverityKey | DetailsKey
    | Check(check: Registration.Check)
    | State(state: Registration.AgentState)
    | Surface(index: nat)
    // values
    | PassWord | FailWord | MissingWord
    | SettleWord | TimeoutWord | SteadyStateWord
    | ErrorWord | AdapterErrorWord | RegistrationTimeoutWord | ProjectionMismatchWord
    | Other(text: string)

  datatype Value =
    | Null
    | Bool(flag: bool)
    | Int(number: int)
    | Str(word: Word)
    | Arr(items: seq<Value>)
    | Obj(fields: map<Word, Value>)
  {
    /** Python's `isinstance(v, int)`, which a bool satisfies. */
    predicate IsInt() { Int? || Bool? }

    function AsInt(): int
      requires IsInt()
    {
      if Int? then number else if flag then 1 else 0
    }

    predicate Truthy()
    {
      match this
      case Null => false
      case Bool(b) => b
      case Int(n) => n != 0
      case Str(w) => w != Other("")
      case Arr(s) => s != []
      case Obj(m) => m != map[]
    }
  }

  type Object = map<Word, Value>

  /** Python's `o.get(key)`. */
  function Get(o: Object, key: Word): Value
  {
    if key in o then o[key] else Null
  }

  /** A file's text after `json.loads`, or its failure. */
  datatype Parse = Bad | Good(value: Value)
}
