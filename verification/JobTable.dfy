/**
 The descriptors of the job messages.  A row names the slot of the field, whether the field is repeated, its camelCase
 and snake_case keys, and the type of its value.  The slots of a list are numbered from `s`; the members of a oneof
 share a slot.
 */
module JobTable {
  import opened Descriptor

  function JobDescriptor(text: NumberText): Descriptor {
    Descriptor(FieldsOf, SlotsOf, VariantsOf, text)
  }

  function FieldsOf(m: MessageName): seq<Field> {
    match m
    case OracleJob => OracleJobFields(0)
    case Task => TaskFields(0)
    case MedianTask => MedianTaskFields(0)
    case MeanTask | MaxTask | MinTask => AggregateFields(0)
    case ConditionalTask => ConditionalTaskFields(0)
    case ComparisonTask => ComparisonTaskFields(0)
    case AddTask | SubtractTask | MultiplyTask | DivideTask => OperandFields(0)
    case CacheTask => CacheTaskFields(0)
    case CacheItem => CacheItemFields(0)
    case LpTokenPriceTask => LpTokenPriceTaskFields(0)
    case XStepPriceTask => XStepPriceTaskFields(0)
    case OracleTask => OracleTaskFields(0)
    case ChainlinkConfigs | TurboEthRedemptionRateTask => ProviderFields(0)
    case PythConfigs => PythConfigsFields(0)
    case SwitchboardConfigs => SwitchboardConfigsFields(0)
    case EdgeConfigs | RedstoneConfigs | MarinadeStateTask | SolayerSusdTask | SysclockOffsetTask => NoFields(0)
    case TwapTask => TwapTaskFields(0)
    case CronParseTask => CronParseTaskFields(0)
    case HttpTask => HttpTaskFields(0)
    case Header => HeaderFields(0)
    case JsonParseTask => JsonParseTaskFields(0)
    case BoundTask => BoundTaskFields(0)
    case JupiterSwapTask => JupiterSwapTaskFields(0)
    case FilterList => FilterListFields(0)
    case ValueTask => ValueTaskFields(0)
    case AftermathTask => AftermathTaskFields(0)
    case AnchorFetchTask => AnchorFetchTaskFields(0)
    case BitFluxTask => BitFluxTaskFields(0)
    case BufferLayoutParseTask => BufferLayoutParseTaskFields(0)
    case CorexTask => CorexTaskFields(0)
    case CurveFinanceTask => CurveFinanceTaskFields(0)
    case EtherfuseTask => EtherfuseTaskFields(0)
    case EwmaTask => EwmaTaskFields(0)
    case FragmetricTask => FragmetricTaskFields(0)
    case GlyphTask => GlyphTaskFields(0)
    case GrokXaiConfig | GroqConfig | OpenAiConfig => ChatConfigFields(0)
    case HistoryFunctionTask => HistoryFunctionTaskFields(0)
    case LendingRateTask => LendingRateTaskFields(0)
    case LlmTask => LlmTaskFields(0)
    case LpExchangeRateTask => LpExchangeRateTaskFields(0)
    case LstHistoricalYieldTask => LstHistoricalYieldTaskFields(0)
    case MangoPerpMarketTask => MangoPerpMarketTaskFields(0)
    case MapleFinanceTask => MapleFinanceTaskFields(0)
    case MeteoraSwapTask => MeteoraSwapTaskFields(0)
    case OndoUsdyTask => OndoUsdyTaskFields(0)
    case PancakeswapExchangeRateTask | SushiswapExchangeRateTask => AmountSwapFields(0)
    case PerpMarketTask => PerpMarketTaskFields(0)
    case PowTask => PowTaskFields(0)
    case PumpAmmTask => PumpAmmTaskFields(0)
    case RegexExtractTask => RegexExtractTaskFields(0)
    case RoundTask => RoundTaskFields(0)
    case SanctumLstPriceTask => SanctumLstPriceTaskFields(0)
    case SecretsTask => SecretsTaskFields(0)
    case SerumSwapTask => SerumSwapTaskFields(0)
    case SolanaAccountDataFetchTask => SolanaAccountDataFetchTaskFields(0)
    case SplStakePoolTask => SplStakePoolTaskFields(0)
    case SplTokenParseTask => SplTokenParseTaskFields(0)
    case UniswapExchangeRateTask => UniswapExchangeRateTaskFields(0)
    case UnixTimeTask => UnixTimeTaskFields(0)
    case VwapTask => VwapTaskFields(0)
    case WebsocketTask => WebsocketTaskFields(0)
  }

  function SlotsOf(m: MessageName): nat {
    match m
    case EdgeConfigs | RedstoneConfigs | MarinadeStateTask | SolayerSusdTask | SysclockOffsetTask => 0
    case OracleJob | MeanTask | MaxTask | MinTask | ConditionalTask | CacheItem | SwitchboardConfigs | Header
      | JsonParseTask | AnchorFetchTask | GlyphTask | MeteoraSwapTask | RegexExtractTask | RoundTask
      | SecretsTask | SolanaAccountDataFetchTask => 2
    case PythConfigs | CronParseTask | BufferLayoutParseTask | CorexTask | EwmaTask | HistoryFunctionTask
      | LendingRateTask | LstHistoricalYieldTask | VwapTask => 3
    case MedianTask | LpTokenPriceTask | HttpTask | AftermathTask | BitFluxTask | CurveFinanceTask
      | GrokXaiConfig | GroqConfig | LpExchangeRateTask | OpenAiConfig | PumpAmmTask | WebsocketTask => 4
    case PancakeswapExchangeRateTask | SushiswapExchangeRateTask => 5
    case TwapTask | JupiterSwapTask => 6
    case OracleTask => 7
    case BoundTask => 8
    case ComparisonTask | UniswapExchangeRateTask => 9
    case _ => 1
  }

  function OracleJobFields(s: nat): seq<Field> { [
    Field(s, true, "tasks", "tasks", Nested(Task)),
    Field(s + 1, false, "weight", "weight", Number(UInt32))
  ] }

  function TasksFromAd(s: nat): seq<Field> { [
    Field(s, false, "addTask", "add_task", Nested(AddTask)),
    Field(s, false, "aftermathTask", "aftermath_task", Nested(AftermathTask)),
    Field(s, false, "anchorFetchTask", "anchor_fetch_task", Nested(AnchorFetchTask)),
    Field(s, false, "bitFluxTask", "bit_flux_task", Nested(BitFluxTask)),
    Field(s, false, "boundTask", "bound_task", Nested(BoundTask))
  ] }

  function TasksFromBu(s: nat): seq<Field> { [
    Field(s, false, "bufferLayoutParseTask", "buffer_layout_parse_task", Nested(BufferLayoutParseTask)),
    Field(s, false, "cacheTask", "cache_task", Nested(CacheTask)),
    Field(s, false, "comparisonTask", "comparison_task", Nested(ComparisonTask)),
    Field(s, false, "conditionalTask", "conditional_task", Nested(ConditionalTask)),
    Field(s, false, "corexTask", "corex_task", Nested(CorexTask))
  ] }

  function TasksFromCr(s: nat): seq<Field> { [
    Field(s, false, "cronParseTask", "cron_parse_task", Nested(CronParseTask)),
    Field(s, false, "curveFinanceTask", "curve_finance_task", Nested(CurveFinanceTask)),
    Field(s, false, "divideTask", "divide_task", Nested(DivideTask)),
    Field(s, false, "etherfuseTask", "etherfuse_task", Nested(EtherfuseTask)),
    Field(s, false, "ewmaTask", "ewma_task", Nested(EwmaTask))
  ] }

  function TasksFromFr(s: nat): seq<Field> { [
    Field(s, false, "fragmetricTask", "fragmetric_task", Nested(FragmetricTask)),
    Field(s, false, "glyphTask", "glyph_task", Nested(GlyphTask)),
    Field(s, false, "historyFunctionTask", "history_function_task", Nested(HistoryFunctionTask)),
    Field(s, false, "httpTask", "http_task", Nested(HttpTask)),
    Field(s, false, "jsonParseTask", "json_parse_task", Nested(JsonParseTask))
  ] }

  function TasksFromJu(s: nat): seq<Field> { [
    Field(s, false, "jupiterSwapTask", "jupiter_swap_task", Nested(JupiterSwapTask)),
    Field(s, false, "lendingRateTask", "lending_rate_task", Nested(LendingRateTask)),
    Field(s, false, "llmTask", "llm_task", Nested(LlmTask)),
    Field(s, false, "lpExchangeRateTask", "lp_exchange_rate_task", Nested(LpExchangeRateTask)),
    Field(s, false, "lpTokenPriceTask", "lp_token_price_task", Nested(LpTokenPriceTask))
  ] }

  function TasksFromLs(s: nat): seq<Field> { [
    Field(s, false, "lstHistoricalYieldTask", "lst_historical_yield_task", Nested(LstHistoricalYieldTask)),
    Field(s, false, "mangoPerpMarketTask", "mango_perp_market_task", Nested(MangoPerpMarketTask)),
    Field(s, false, "mapleFinanceTask", "maple_finance_task", Nested(MapleFinanceTask)),
    Field(s, false, "marinadeStateTask", "marinade_state_task", Nested(MarinadeStateTask)),
    Field(s, false, "maxTask", "max_task", Nested(MaxTask))
  ] }

  function TasksFromMe(s: nat): seq<Field> { [
    Field(s, false, "meanTask", "mean_task", Nested(MeanTask)),
    Field(s, false, "medianTask", "median_task", Nested(MedianTask)),
    Field(s, false, "meteoraSwapTask", "meteora_swap_task", Nested(MeteoraSwapTask)),
    Field(s, false, "minTask", "min_task", Nested(MinTask)),
    Field(s, false, "multiplyTask", "multiply_task", Nested(MultiplyTask))
  ] }

  function TasksFromOn(s: nat): seq<Field> { [
    Field(s, false, "ondoUsdyTask", "ondo_usdy_task", Nested(OndoUsdyTask)),
    Field(s, false, "oracleTask", "oracle_task", Nested(OracleTask)),
    Field(s, false, "pancakeswapExchangeRateTask", "pancakeswap_exchange_rate_task",
          Nested(PancakeswapExchangeRateTask)),
    Field(s, false, "perpMarketTask", "perp_market_task", Nested(PerpMarketTask)),
    Field(s, false, "powTask", "pow_task", Nested(PowTask))
  ] }

  function TasksFromPu(s: nat): seq<Field> { [
    Field(s, false, "pumpAmmTask", "pump_amm_task", Nested(PumpAmmTask)),
    Field(s, false, "regexExtractTask", "regex_extract_task", Nested(RegexExtractTask)),
    Field(s, false, "roundTask", "round_task", Nested(RoundTask)),
    Field(s, false, "sanctumLstPriceTask", "sanctum_lst_price_task", Nested(SanctumLstPriceTask))
  ] }

  function TasksFromSe(s: nat): seq<Field> { [
    Field(s, false, "secretsTask", "secrets_task", Nested(SecretsTask)),
    Field(s, false, "serumSwapTask", "serum_swap_task", Nested(SerumSwapTask)),
    Field(s, false, "solanaAccountDataFetchTask", "solana_account_data_fetch_task", Nested(SolanaAccountDataFetchTask)),
    Field(s, false, "solayerSusdTask", "solayer_susd_task", Nested(SolayerSusdTask))
  ] }

  function TasksFromSp(s: nat): seq<Field> { [
    Field(s, false, "splStakePoolTask", "spl_stake_pool_task", Nested(SplStakePoolTask)),
    Field(s, false, "splTokenParseTask", "spl_token_parse_task", Nested(SplTokenParseTask)),
    Field(s, false, "subtractTask", "subtract_task", Nested(SubtractTask)),
    Field(s, false, "sushiswapExchangeRateTask", "sushiswap_exchange_rate_task", Nested(SushiswapExchangeRateTask)),
    Field(s, false, "sysclockOffsetTask", "sysclock_offset_task", Nested(SysclockOffsetTask))
  ] }

  function TasksFromTu(s: nat): seq<Field> { [
    Field(s, false, "turboEthRedemptionRateTask", "turbo_eth_redemption_rate_task", Nested(TurboEthRedemptionRateTask)),
    Field(s, false, "twapTask", "twap_task", Nested(TwapTask)),
    Field(s, false, "uniswapExchangeRateTask", "uniswap_exchange_rate_task", Nested(UniswapExchangeRateTask)),
    Field(s, false, "unixTimeTask", "unix_time_task", Nested(UnixTimeTask)),
    Field(s, false, "valueTask", "value_task", Nested(ValueTask))
  ] }

  function TasksFromVw(s: nat): seq<Field> { [
    Field(s, false, "vwapTask", "vwap_task", Nested(VwapTask)),
    Field(s, false, "websocketTask", "websocket_task", Nested(WebsocketTask)),
    Field(s, false, "xstepPriceTask", "xstep_price_task", Nested(XStepPriceTask))
  ] }

  function MedianTaskFields(s: nat): seq<Field> { [
    Field(s, true, "tasks", "tasks", Nested(Task)),
    Field(s + 1, true, "jobs", "jobs", Nested(OracleJob)),
    Field(s + 2, false, "minSuccessfulRequired", "min_successful_required", Number(Int32)),
    Field(s + 3, false, "maxRangePercent", "max_range_percent", Text)
  ] }

  function AggregateFields(s: nat): seq<Field> { [
    Field(s, true, "tasks", "tasks", Nested(Task)),
    Field(s + 1, true, "jobs", "jobs", Nested(OracleJob))
  ] }

  function ConditionalTaskFields(s: nat): seq<Field> { [
    Field(s, true, "attempt", "attempt", Nested(Task)),
    Field(s + 1, true, "onFailure", "on_failure", Nested(Task))
  ] }

  function ComparisonOutcomes(s: nat): seq<Field> { [
    Field(s, false, "op", "op", Enumeration(ComparisonOperation)),
    Field(s + 1, false, "onTrue", "on_true", Nested(OracleJob)),
    Field(s + 2, false, "onTrueValue", "on_true_value", Text),
    Field(s + 3, false, "onFalse", "on_false", Nested(OracleJob)),
    Field(s + 4, false, "onFalseValue", "on_false_value", Text),
    Field(s + 5, false, "onFailure", "on_failure", Nested(OracleJob)),
    Field(s + 6, false, "onFailureValue", "on_failure_value", Text)
  ] }

  function ComparisonSides(s: nat): seq<Field> { [
    Field(s, false, "lhs", "lhs", Nested(OracleJob)),
    Field(s, false, "lhsValue", "lhs_value", Text),
    Field(s + 1, false, "rhs", "rhs", Nested(OracleJob)),
    Field(s + 1, false, "rhsValue", "rhs_value", Text)
  ] }

  function OperandFields(s: nat): seq<Field> { [
    Field(s, false, "scalar", "scalar", Number(Float64)),
    Field(s, false, "aggregatorPubkey", "aggregator_pubkey", Text),
    Field(s, false, "job", "job", Nested(OracleJob)),
    Field(s, false, "big", "big", Text)
  ] }

  function CacheTaskFields(s: nat): seq<Field> { [
    Field(s, true, "cacheItems", "cache_items", Nested(CacheItem))
  ] }

  function CacheItemFields(s: nat): seq<Field> { [
    Field(s, false, "variableName", "variable_name", Text),
    Field(s + 1, false, "job", "job", Nested(OracleJob))
  ] }

  function LpPriceSources(s: nat): seq<Field> { [
    Field(s, true, "priceFeedAddresses", "price_feed_addresses", Text),
    Field(s + 1, true, "priceFeedJobs", "price_feed_jobs", Nested(OracleJob)),
    Field(s + 2, false, "useFairPrice", "use_fair_price", Flag)
  ] }

  function LpPoolAddresses(s: nat): seq<Field> { [
    Field(s, false, "mercurialPoolAddress", "mercurial_pool_address", Text),
    Field(s, false, "saberPoolAddress", "saber_pool_address", Text),
    Field(s, false, "orcaPoolAddress", "orca_pool_address", Text),
    Field(s, false, "raydiumPoolAddress", "raydium_pool_address", Text)
  ] }

  function XStepPriceTaskFields(s: nat): seq<Field> { [
    Field(s, false, "stepJob", "step_job", Nested(MedianTask)),
    Field(s, false, "stepAggregatorPubkey", "step_aggregator_pubkey", Text)
  ] }

  function OracleConfigs(s: nat): seq<Field> { [
    Field(s, false, "pythAllowedConfidenceInterval", "pyth_allowed_confidence_interval", Number(Float64)),
    Field(s + 1, false, "chainlinkConfigs", "chainlink_configs", Nested(ChainlinkConfigs)),
    Field(s + 2, false, "pythConfigs", "pyth_configs", Nested(PythConfigs)),
    Field(s + 3, false, "switchboardConfigs", "switchboard_configs", Nested(SwitchboardConfigs)),
    Field(s + 4, false, "edgeConfigs", "edge_configs", Nested(EdgeConfigs)),
    Field(s + 5, false, "redstoneConfigs", "redstone_configs", Nested(RedstoneConfigs))
  ] }

  function OracleAddresses(s: nat): seq<Field> { [
    Field(s, false, "switchboardAddress", "switchboard_address", Text),
    Field(s, false, "pythAddress", "pyth_address", Text),
    Field(s, false, "chainlinkAddress", "chainlink_address", Text),
    Field(s, false, "edgeId", "edge_id", Text),
    Field(s, false, "redstoneId", "redstone_id", Text)
  ] }

  function ProviderFields(s: nat): seq<Field> { [
    Field(s, false, "provider", "provider", Text)
  ] }

  function PythConfigsFields(s: nat): seq<Field> { [
    Field(s, false, "hermesUrl", "hermes_url", Text),
    Field(s + 1, false, "pythAllowedConfidenceInterval", "pyth_allowed_confidence_interval", Number(Float64)),
    Field(s + 2, false, "maxStaleSeconds", "max_stale_seconds", Number(Int32))
  ] }

  function SwitchboardConfigsFields(s: nat): seq<Field> { [
    Field(s, false, "version", "version", Number(Int32)),
    Field(s + 1, true, "jobs", "jobs", Nested(OracleJob))
  ] }

  function NoFields(s: nat): seq<Field> { [] }

  function TwapTaskFields(s: nat): seq<Field> { [
    Field(s, false, "aggregatorPubkey", "aggregator_pubkey", Text),
    Field(s + 1, false, "period", "period", Number(Int32)),
    Field(s + 2, false, "weightByPropagationTime", "weight_by_propagation_time", Flag),
    Field(s + 3, false, "minSamples", "min_samples", Number(UInt32)),
    Field(s + 4, false, "endingUnixTimestamp", "ending_unix_timestamp", Number(Int32)),
    Field(s + 5, false, "endingUnixTimestampTask", "ending_unix_timestamp_task", Nested(CronParseTask))
  ] }

  function CronParseTaskFields(s: nat): seq<Field> { [
    Field(s, false, "cronPattern", "cron_pattern", Text),
    Field(s + 1, false, "clockOffset", "clock_offset", Number(Int32)),
    Field(s + 2, false, "clock", "clock", Enumeration(CronParseClockType))
  ] }

  function HttpTaskFields(s: nat): seq<Field> { [
    Field(s, false, "url", "url", Text),
    Field(s + 1, false, "method", "method", Enumeration(HttpMethod)),
    Field(s + 2, true, "headers", "headers", Nested(Header)),
    Field(s + 3, false, "body", "body", Text)
  ] }

  function HeaderFields(s: nat): seq<Field> { [
    Field(s, false, "key", "key", Text),
    Field(s + 1, false, "value", "value", Text)
  ] }

  function JsonParseTaskFields(s: nat): seq<Field> { [
    Field(s, false, "path", "path", Text),
    Field(s + 1, false, "aggregationMethod", "aggregation_method", Enumeration(JsonParseAggregationMethod))
  ] }

  function BoundLimits(s: nat): seq<Field> { [
    Field(s, false, "lowerBound", "lower_bound", Nested(OracleJob)),
    Field(s + 1, false, "lowerBoundValue", "lower_bound_value", Text),
    Field(s + 2, false, "upperBound", "upper_bound", Nested(OracleJob)),
    Field(s + 3, false, "upperBoundValue", "upper_bound_value", Text)
  ] }

  function BoundOutcomes(s: nat): seq<Field> { [
    Field(s, false, "onExceedsUpperBound", "on_exceeds_upper_bound", Nested(OracleJob)),
    Field(s + 1, false, "onExceedsUpperBoundValue", "on_exceeds_upper_bound_value", Text),
    Field(s + 2, false, "onExceedsLowerBound", "on_exceeds_lower_bound", Nested(OracleJob)),
    Field(s + 3, false, "onExceedsLowerBoundValue", "on_exceeds_lower_bound_value", Text)
  ] }

  function JupiterSwapSettings(s: nat): seq<Field> { [
    Field(s, false, "inTokenAddress", "in_token_address", Text),
    Field(s + 1, false, "outTokenAddress", "out_token_address", Text),
    Field(s + 2, false, "slippage", "slippage", Number(Float64)),
    Field(s + 3, false, "version", "version", Enumeration(JupiterSwapVersion))
  ] }

  function JupiterSwapChoices(s: nat): seq<Field> { [
    Field(s, false, "allowList", "allow_list", Nested(FilterList)),
    Field(s, false, "denyList", "deny_list", Nested(FilterList)),
    Field(s + 1, false, "baseAmount", "base_amount", Number(Float64)),
    Field(s + 1, false, "quoteAmount", "quote_amount", Number(Float64)),
    Field(s + 1, false, "baseAmountString", "base_amount_string", Text),
    Field(s + 1, false, "quoteAmountString", "quote_amount_string", Text)
  ] }

  function FilterListFields(s: nat): seq<Field> { [
    Field(s, true, "labels", "labels", Text)
  ] }

  function ValueTaskFields(s: nat): seq<Field> { [
    Field(s, false, "value", "value", Number(Float64)),
    Field(s, false, "aggregatorPubkey", "aggregator_pubkey", Text),
    Field(s, false, "big", "big", Text),
    Field(s, false, "hex", "hex", Text),
    Field(s, false, "utf8", "utf8", Text)
  ] }

  function AftermathTaskFields(s: nat): seq<Field> { [
    Field(s, false, "poolAddress", "pool_address", Text),
    Field(s + 1, false, "inAmount", "in_amount", Number(Float64)),
    Field(s + 2, false, "inCoinType", "in_coin_type", Text),
    Field(s + 3, false, "outCoinType", "out_coin_type", Text)
  ] }

  function AnchorFetchTaskFields(s: nat): seq<Field> { [
    Field(s, false, "programId", "program_id", Text),
    Field(s + 1, false, "accountAddress", "account_address", Text)
  ] }

  function BitFluxTaskFields(s: nat): seq<Field> { [
    Field(s, false, "provider", "provider", Text),
    Field(s + 1, false, "poolAddress", "pool_address", Text),
    Field(s + 2, false, "inToken", "in_token", Text),
    Field(s + 3, false, "outToken", "out_token", Text)
  ] }

  function BufferLayoutParseTaskFields(s: nat): seq<Field> { [
    Field(s, false, "offset", "offset", Number(UInt32)),
    Field(s + 1, false, "endian", "endian", Enumeration(BufferLayoutParseEndian)),
    Field(s + 2, false, "type", "type", Enumeration(BufferParseType))
  ] }

  function CorexTaskFields(s: nat): seq<Field> { [
    Field(s, false, "inToken", "in_token", Text),
    Field(s + 1, false, "outToken", "out_token", Text),
    Field(s + 2, false, "slippage", "slippage", Number(Float64))
  ] }

  function CurveFinanceTaskFields(s: nat): seq<Field> { [
    Field(s, false, "chain", "chain", Enumeration(CurveFinanceChain)),
    Field(s + 1, false, "provider", "provider", Text),
    Field(s + 2, false, "poolAddress", "pool_address", Text),
    Field(s + 3, false, "outDecimals", "out_decimals", Number(UInt32))
  ] }

  function EtherfuseTaskFields(s: nat): seq<Field> { [
    Field(s, false, "token", "token", Enumeration(EtherfuseToken))
  ] }

  function EwmaTaskFields(s: nat): seq<Field> { [
    Field(s, false, "aggregatorAddress", "aggregator_address", Text),
    Field(s + 1, false, "period", "period", Number(Int32)),
    Field(s + 2, false, "lambda", "lambda", Number(Float64))
  ] }

  function FragmetricTaskFields(s: nat): seq<Field> { [
    Field(s, false, "token", "token", Enumeration(FragmetricToken))
  ] }

  function GlyphTaskFields(s: nat): seq<Field> { [
    Field(s, false, "poolAddress", "pool_address", Text),
    Field(s + 1, false, "zeroForOne", "zero_for_one", Flag)
  ] }

  function ChatConfigFields(s: nat): seq<Field> { [
    Field(s, false, "model", "model", Text),
    Field(s + 1, false, "userPrompt", "user_prompt", Text),
    Field(s + 2, false, "temperature", "temperature", Number(Float64)),
    Field(s + 3, false, "secretNameApiKey", "secret_name_api_key", Text)
  ] }

  function HistoryFunctionTaskFields(s: nat): seq<Field> { [
    Field(s, false, "method", "method", Enumeration(HistoryFunctionMethod)),
    Field(s + 1, false, "aggregatorAddress", "aggregator_address", Text),
    Field(s + 2, false, "period", "period", Number(UInt32))
  ] }

  function LendingRateTaskFields(s: nat): seq<Field> { [
    Field(s, false, "protocol", "protocol", Text),
    Field(s + 1, false, "assetMint", "asset_mint", Text),
    Field(s + 2, false, "field", "field", Enumeration(LendingRateField))
  ] }

  function LlmTaskFields(s: nat): seq<Field> { [
    Field(s, false, "openai", "openai", Nested(OpenAiConfig)),
    Field(s, false, "groq", "groq", Nested(GroqConfig)),
    Field(s, false, "grokxai", "grokxai", Nested(GrokXaiConfig))
  ] }

  function LpExchangeRateSettings(s: nat): seq<Field> { [
    Field(s, false, "inTokenAddress", "in_token_address", Text),
    Field(s + 1, false, "outTokenAddress", "out_token_address", Text),
    Field(s + 2, false, "chain", "chain", Enumeration(LpExchangeRateChain)),
    Field(s + 3, false, "mercurialPoolAddress", "mercurial_pool_address", Text)
  ] }

  function LpExchangeRateAddresses(s: nat): seq<Field> { [
    Field(s, false, "saberPoolAddress", "saber_pool_address", Text),
    Field(s, false, "orcaPoolTokenMintAddress", "orca_pool_token_mint_address", Text),
    Field(s, false, "raydiumPoolAddress", "raydium_pool_address", Text),
    Field(s, false, "orcaPoolAddress", "orca_pool_address", Text),
    Field(s, false, "portReserveAddress", "port_reserve_address", Text)
  ] }

  function LstHistoricalYieldTaskFields(s: nat): seq<Field> { [
    Field(s, false, "lstMint", "lst_mint", Text),
    Field(s + 1, false, "operation", "operation", Enumeration(LstHistoricalYieldOperation)),
    Field(s + 2, false, "epochs", "epochs", Number(Int32))
  ] }

  function MangoPerpMarketTaskFields(s: nat): seq<Field> { [
    Field(s, false, "perpMarketAddress", "perp_market_address", Text)
  ] }

  function MapleFinanceTaskFields(s: nat): seq<Field> { [
    Field(s, false, "method", "method", Enumeration(MapleFinanceMethod))
  ] }

  function MeteoraSwapTaskFields(s: nat): seq<Field> { [
    Field(s, false, "pool", "pool", Text),
    Field(s + 1, false, "type", "type", Enumeration(MeteoraSwapType))
  ] }

  function OndoUsdyTaskFields(s: nat): seq<Field> { [
    Field(s, false, "strategy", "strategy", Enumeration(OndoUsdyStrategy))
  ] }

  function AmountSwapFields(s: nat): seq<Field> { [
    Field(s, false, "inTokenAddress", "in_token_address", Text),
    Field(s + 1, false, "outTokenAddress", "out_token_address", Text),
    Field(s + 2, false, "inTokenAmount", "in_token_amount", Number(Float64)),
    Field(s + 3, false, "slippage", "slippage", Number(Float64)),
    Field(s + 4, false, "provider", "provider", Text)
  ] }

  function PerpMarketTaskFields(s: nat): seq<Field> { [
    Field(s, false, "mangoMarketAddress", "mango_market_address", Text),
    Field(s, false, "driftMarketAddress", "drift_market_address", Text),
    Field(s, false, "zetaMarketAddress", "zeta_market_address", Text),
    Field(s, false, "zoMarketAddress", "zo_market_address", Text)
  ] }

  function PowTaskFields(s: nat): seq<Field> { [
    Field(s, false, "scalar", "scalar", Number(Float64)),
    Field(s, false, "aggregatorPubkey", "aggregator_pubkey", Text),
    Field(s, false, "big", "big", Text)
  ] }

  function PumpAmmTaskFields(s: nat): seq<Field> { [
    Field(s, false, "poolAddress", "pool_address", Text),
    Field(s + 1, false, "inAmount", "in_amount", Number(Float64)),
    Field(s + 2, false, "maxSlippage", "max_slippage", Number(Float64)),
    Field(s + 3, false, "isXForY", "is_x_for_y", Flag)
  ] }

  function RegexExtractTaskFields(s: nat): seq<Field> { [
    Field(s, false, "pattern", "pattern", Text),
    Field(s + 1, false, "groupNumber", "group_number", Number(Int32))
  ] }

  function RoundTaskFields(s: nat): seq<Field> { [
    Field(s, false, "method", "method", Enumeration(RoundMethod)),
    Field(s + 1, false, "decimals", "decimals", Number(Int32))
  ] }

  function SanctumLstPriceTaskFields(s: nat): seq<Field> { [
    Field(s, false, "lstMint", "lst_mint", Text)
  ] }

  function SecretsTaskFields(s: nat): seq<Field> { [
    Field(s, false, "authority", "authority", Text),
    Field(s + 1, false, "url", "url", Text)
  ] }

  function SerumSwapTaskFields(s: nat): seq<Field> { [
    Field(s, false, "serumPoolAddress", "serum_pool_address", Text)
  ] }

  function SolanaAccountDataFetchTaskFields(s: nat): seq<Field> { [
    Field(s, false, "pubkey", "pubkey", Text),
    Field(s + 1, false, "network", "network", Enumeration(SolanaAccountDataFetchNetwork))
  ] }

  function SplStakePoolTaskFields(s: nat): seq<Field> { [
    Field(s, false, "pubkey", "pubkey", Text)
  ] }

  function SplTokenParseTaskFields(s: nat): seq<Field> { [
    Field(s, false, "tokenAccountAddress", "token_account_address", Text),
    Field(s, false, "mintAddress", "mint_address", Text)
  ] }

  function UniswapAmounts(s: nat): seq<Field> { [
    Field(s, false, "inTokenAddress", "in_token_address", Text),
    Field(s + 1, false, "outTokenAddress", "out_token_address", Text),
    Field(s + 2, false, "inTokenAmount", "in_token_amount", Number(Float64)),
    Field(s + 3, false, "slippage", "slippage", Number(Float64)),
    Field(s + 4, false, "provider", "provider", Text)
  ] }

  function UniswapAddresses(s: nat): seq<Field> { [
    Field(s, false, "version", "version", Enumeration(UniswapExchangeRateVersion)),
    Field(s + 1, false, "routerAddress", "router_address", Text),
    Field(s + 2, false, "factoryAddress", "factory_address", Text),
    Field(s + 3, false, "quoterAddress", "quoter_address", Text)
  ] }

  function UnixTimeTaskFields(s: nat): seq<Field> { [
    Field(s, false, "offset", "offset", Number(Int32))
  ] }

  function VwapTaskFields(s: nat): seq<Field> { [
    Field(s, false, "priceAggregatorAddress", "price_aggregator_address", Text),
    Field(s + 1, false, "volumeAggregatorAddress", "volume_aggregator_address", Text),
    Field(s + 2, false, "period", "period", Number(UInt32))
  ] }

  function WebsocketTaskFields(s: nat): seq<Field> { [
    Field(s, false, "url", "url", Text),
    Field(s + 1, false, "subscription", "subscription", Text),
    Field(s + 2, false, "maxDataAgeSeconds", "max_data_age_seconds", Number(Int32)),
    Field(s + 3, false, "filter", "filter", Text)
  ] }

  function TaskFields(s: nat): seq<Field> {
    TasksFromAd(s) + TasksFromBu(s) + TasksFromCr(s) + TasksFromFr(s) + TasksFromJu(s) + TasksFromLs(s) +
    TasksFromMe(s) + TasksFromOn(s) + TasksFromPu(s) + TasksFromSe(s) + TasksFromSp(s) + TasksFromTu(s) +
    TasksFromVw(s)
  }

  function ComparisonTaskFields(s: nat): seq<Field> {
    ComparisonOutcomes(s) + ComparisonSides(s + 7)
  }

  function LpTokenPriceTaskFields(s: nat): seq<Field> {
    LpPriceSources(s) + LpPoolAddresses(s + 3)
  }

  function OracleTaskFields(s: nat): seq<Field> {
    OracleConfigs(s) + OracleAddresses(s + 6)
  }

  function BoundTaskFields(s: nat): seq<Field> {
    BoundLimits(s) + BoundOutcomes(s + 4)
  }

  function JupiterSwapTaskFields(s: nat): seq<Field> {
    JupiterSwapSettings(s) + JupiterSwapChoices(s + 4)
  }

  function LpExchangeRateTaskFields(s: nat): seq<Field> {
    LpExchangeRateSettings(s) + LpExchangeRateAddresses(s + 3)
  }

  function UniswapExchangeRateTaskFields(s: nat): seq<Field> {
    UniswapAmounts(s) + UniswapAddresses(s + 5)
  }

  function VariantsOf(e: EnumName): seq<Variant> {
    match e
    case BufferParseType => NarrowBufferTypes(0) + WideBufferTypes(0)
    case BufferLayoutParseEndian => [
      Variant("LITTLE_ENDIAN", 0), Variant("BIG_ENDIAN", 1)]
    case ComparisonOperation => [
      Variant("OPERATION_EQ", 0), Variant("OPERATION_GT", 1), Variant("OPERATION_LT", 2)]
    case CronParseClockType => [
      Variant("ORACLE", 0), Variant("SYSCLOCK", 1)]
    case CurveFinanceChain => [
      Variant("CHAIN_ETHEREUM", 0)]
    case EtherfuseToken => [
      Variant("TOKEN_CETES", 0), Variant("TOKEN_USTRY", 1), Variant("TOKEN_EUROB", 2),
      Variant("TOKEN_TESOURO", 3), Variant("TOKEN_GILTS", 4)]
    case FragmetricToken => [
      Variant("TOKEN_FRAG_SOL", 0), Variant("TOKEN_N_SOL", 1)]
    case HistoryFunctionMethod => [
      Variant("METHOD_MIN", 0), Variant("METHOD_MAX", 1)]
    case HttpMethod => [
      Variant("METHOD_UNKOWN", 0), Variant("METHOD_GET", 1), Variant("METHOD_POST", 2)]
    case JsonParseAggregationMethod => [
      Variant("NONE", 0), Variant("MIN", 1), Variant("MAX", 2), Variant("SUM", 3), Variant("MEAN", 4),
      Variant("MEDIAN", 5)]
    case JupiterSwapVersion => [
      Variant("VERSION_V1", 0), Variant("VERSION_V2", 1)]
    case LendingRateField => [
      Variant("FIELD_DEPOSIT_RATE", 0), Variant("FIELD_BORROW_RATE", 1)]
    case LpExchangeRateChain => [
      Variant("SOLANA", 0), Variant("ECLIPSE", 1)]
    case LstHistoricalYieldOperation => [
      Variant("OPERATION_MEDIAN", 0), Variant("OPERATION_MEAN", 1), Variant("OPERATION_MIN", 2),
      Variant("OPERATION_MAX", 3)]
    case MapleFinanceMethod => [
      Variant("METHOD_SYRUP_USDC_FAIR_PRICE", 0)]
    case MeteoraSwapType => [
      Variant("TYPE_DLMM", 0), Variant("TYPE_STANDARD", 1)]
    case OndoUsdyStrategy => [
      Variant("STRATEGY_FAIR_VALUE", 0), Variant("STRATEGY_MARKET", 1)]
    case RoundMethod => [
      Variant("METHOD_ROUND_UP", 0), Variant("METHOD_ROUND_DOWN", 1)]
    case SolanaAccountDataFetchNetwork => [
      Variant("NETWORK_MAINNET", 0), Variant("NETWORK_TESTNET", 1), Variant("NETWORK_DEVNET", 2)]
    case UniswapExchangeRateVersion => [
      Variant("VERSION_V2_DEPRECATED", 0), Variant("VERSION_V3_DEPRECATED", 1), Variant("VERSION_V2", 2),
      Variant("VERSION_V3", 3)]
  }

  function NarrowBufferTypes(n: nat): seq<Variant> { [
    Variant("pubkey", n + 1), Variant("bool", n + 2), Variant("u8", n + 3), Variant("i8", n + 4),
    Variant("u16", n + 5), Variant("i16", n + 6)
  ] }

  function WideBufferTypes(n: nat): seq<Variant> { [
    Variant("u32", n + 7), Variant("i32", n + 8), Variant("f32", n + 9), Variant("u64", n + 10),
    Variant("i64", n + 11), Variant("f64", n + 12), Variant("u128", n + 13), Variant("i128", n + 14)
  ] }
}
