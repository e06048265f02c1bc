/**
 What the generated JSON codec knows about a message: one `Field` for each arm of a `visit_str`/`visit_map`
 pair, and one slot for each `Option` variable that `visit_map` fills.  The members of a oneof share one slot;
 every other field has a slot of its own.  Slots are numbered in the order `serialize` writes them.
 */
module Descriptor {
  import opened Wrappers

  datatype MessageName =
    | OracleJob | Task | MedianTask | MeanTask | MaxTask | MinTask | ConditionalTask | ComparisonTask | AddTask
    | SubtractTask | MultiplyTask | DivideTask | CacheTask | CacheItem | LpTokenPriceTask | XStepPriceTask
    | OracleTask | ChainlinkConfigs | PythConfigs | SwitchboardConfigs | EdgeConfigs | RedstoneConfigs
    | TwapTask | CronParseTask | HttpTask | Header | JsonParseTask | BoundTask | JupiterSwapTask | FilterList
    | MarinadeStateTask | ValueTask | AftermathTask | AnchorFetchTask | BitFluxTask | BufferLayoutParseTask
    | CorexTask | CurveFinanceTask | EtherfuseTask | EwmaTask | FragmetricTask | GlyphTask | GrokXaiConfig
    | GroqConfig | HistoryFunctionTask | LendingRateTask | LlmTask | LpExchangeRateTask | LstHistoricalYieldTask
    | MangoPerpMarketTask | MapleFinanceTask | MeteoraSwapTask | OndoUsdyTask | OpenAiConfig
    | PancakeswapExchangeRateTask | PerpMarketTask | PowTask | PumpAmmTask | RegexExtractTask | RoundTask
    | SanctumLstPriceTask | SecretsTask | SerumSwapTask | SolanaAccountDataFetchTask | SolayerSusdTask
    | SplStakePoolTask | SplTokenParseTask | SushiswapExchangeRateTask | SysclockOffsetTask
    | TurboEthRedemptionRateTask | UniswapExchangeRateTask | UnixTimeTask | VwapTask | WebsocketTask

  datatype EnumName =
    | BufferParseType | BufferLayoutParseEndian | ComparisonOperation | CronParseClockType | CurveFinanceChain
    | EtherfuseToken | FragmetricToken | HistoryFunctionMethod | HttpMethod | JsonParseAggregationMethod
    | JupiterSwapVersion | LendingRateField | LpExchangeRateChain | LstHistoricalYieldOperation
    | MapleFinanceMethod | MeteoraSwapType | OndoUsdyStrategy | RoundMethod | SolanaAccountDataFetchNetwork
    | UniswapExchangeRateVersion

  datatype NumberType = Int32 | UInt32 | Float64

  datatype Kind =
    | Text
    | Flag
    | Number(width: NumberType)
    | Enumeration(enum: EnumName)
    | Nested(message: MessageName)

  /** One JSON key of a message, in its two spellings, and the slot it fills. */
  datatype Field = Field(slot: nat, repeated: bool, camel: string, snake: string, kind: Kind)

  datatype Variant = Variant(name: string, number: int)

  /** A binary64 value: a finite number, or one of the values that JSON numbers cannot express. */
  datatype Double = Finite(x: real) | NotANumber | PositiveInfinity | NegativeInfinity

  /** `FromStr` for integers and for `f64` in Rust's standard library; the codec theorems hold for any. */
  datatype NumberText = NumberText(asInt: string -> Option<int>, asDouble: string -> Option<Double>)

  datatype Descriptor = Descriptor(
    fields: MessageName -> seq<Field>,
    slots: MessageName -> nat,
    variants: EnumName -> seq<Variant>,
    text: NumberText)

  predicate Spells(f: Field, key: string) {
    key == f.camel || key == f.snake
  }

  /** `visit_str`: the first arm that matches `key`, looking from arm `i` on. */
  function Resolve(fields: seq<Field>, key: string, i: nat := 0): (r: Option<nat>)
    requires i <= |fields|
    ensures r.Some? ==> i <= r.value < |fields| && Spells(fields[r.value], key)
    ensures r.None? ==> forall k :: i <= k < |fields| ==> !Spells(fields[k], key)
    decreases |fields| - i
  {
    if i == |fields| then None
    else if Spells(fields[i], key) then Some(i)
    else Resolve(fields, key, i + 1)
  }

  /** The first field that fills slot `slot`. */
  function Owner(fields: seq<Field>, slot: nat, i: nat := 0): (r: Option<nat>)
    requires i <= |fields|
    ensures r.Some? ==> i <= r.value < |fields| && fields[r.value].slot == slot
    ensures r.None? ==> forall k :: i <= k < |fields| ==> fields[k].slot != slot
    decreases |fields| - i
  {
    if i == |fields| then None
    else if fields[i].slot == slot then Some(i)
    else Owner(fields, slot, i + 1)
  }

  predicate IsRepeated(fields: seq<Field>, slot: nat) {
    var o := Owner(fields, slot);
    o.Some? && fields[o.value].repeated
  }

  function FindName(vs: seq<Variant>, name: string): (r: Option<int>)
    ensures r.Some? ==> Variant(name, r.value) in vs
    ensures r.None? ==> forall v :: v in vs ==> v.name != name
  {
    if vs == [] then None
    else if vs[0].name == name then Some(vs[0].number)
    else FindName(vs[1..], name)
  }

  function FindNumber(vs: seq<Variant>, n: int): (r: Option<string>)
    ensures r.Some? ==> Variant(r.value, n) in vs
    ensures r.None? ==> forall v :: v in vs ==> v.number != n
  {
    if vs == [] then None
    else if vs[0].number == n then Some(vs[0].name)
    else FindNumber(vs[1..], n)
  }

  // ----- what makes a descriptor usable -----

  ghost predicate Apart(f: Field, g: Field) {
    f.camel != g.camel && f.camel != g.snake && f.snake != g.camel && f.snake != g.snake
  }

  ghost predicate NamesApart(fields: seq<Field>) {
    forall i, j :: 0 <= i < j < |fields| ==> Apart(fields[i], fields[j])
  }

  /** A repeated field holds texts or messages and shares its slot with no other field. */
  ghost predicate ListsAlone(fields: seq<Field>) {
    && (forall i :: 0 <= i < |fields| && fields[i].repeated ==> fields[i].kind.Text? || fields[i].kind.Nested?)
    && (forall i, j :: 0 <= i < |fields| && 0 <= j < |fields| && i != j && fields[i].repeated ==>
          fields[i].slot != fields[j].slot)
  }

  ghost predicate ValidMessage(fields: seq<Field>) {
    NamesApart(fields) && ListsAlone(fields)
  }

  ghost predicate ValidEnum(vs: seq<Variant>) {
    && (forall i, j :: 0 <= i < j < |vs| ==> vs[i].name != vs[j].name && vs[i].number != vs[j].number)
    && (forall i :: 0 <= i < |vs| ==> -0x8000_0000 <= vs[i].number < 0x8000_0000)
  }

  ghost predicate SlotsInRange(d: Descriptor) {
    forall m, i :: 0 <= i < |d.fields(m)| ==> d.fields(m)[i].slot < d.slots(m)
  }

  ghost predicate Valid(d: Descriptor) {
    && SlotsInRange(d)
    && (forall m :: ValidMessage(d.fields(m)))
    && (forall e :: ValidEnum(d.variants(e)))
  }

  // ----- consequences -----

  /** Exactly the two spellings of its key lead to a field. */
  lemma ResolveSpelling(fields: seq<Field>, i: nat, key: string)
    requires NamesApart(fields) && i < |fields|
    ensures Resolve(fields, key) == Some(i) <==> key == fields[i].camel || key == fields[i].snake
  {
    var r := Resolve(fields, key);
    if r.Some? && r.value != i {
      assert r.value < i ==> Apart(fields[r.value], fields[i]);
      assert i < r.value ==> Apart(fields[i], fields[r.value]);
    }
  }

  lemma OwnerOfRepeated(fields: seq<Field>, i: nat)
    requires ListsAlone(fields) && i < |fields|
    ensures IsRepeated(fields, fields[i].slot) == fields[i].repeated
    ensures fields[i].repeated ==> Owner(fields, fields[i].slot) == Some(i)
  {
  }

  /** Names and numbers of an enum determine each other. */
  lemma VariantInverse(vs: seq<Variant>, v: Variant)
    requires ValidEnum(vs) && v in vs
    ensures FindName(vs, v.name) == Some(v.number)
    ensures FindNumber(vs, v.number) == Some(v.name)
  {
    var i :| 0 <= i < |vs| && vs[i] == v;
    var n := FindName(vs, v.name);
    var j :| 0 <= j < |vs| && vs[j] == Variant(v.name, n.value);
    var s := FindNumber(vs, v.number);
    var k :| 0 <= k < |vs| && vs[k] == Variant(s.value, v.number);
  }
}
