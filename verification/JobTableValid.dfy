/** The tables of the job messages are well formed, so the codec theorems apply to them. */
module JobTableValid {
  import opened Descriptor
  import opened JobTable

  ghost predicate Listed(fields: seq<Field>, slots: nat) {
    ValidMessage(fields) && forall i :: 0 <= i < |fields| ==> fields[i].slot < slots
  }

  ghost predicate Across(a: seq<Field>, b: seq<Field>) {
    forall i, j :: 0 <= i < |a| && 0 <= j < |b| ==> Apart(a[i], b[j])
  }

  /** Where the two lists meet in a slot, neither has a repeated field. */
  ghost predicate ListsKept(a: seq<Field>, b: seq<Field>) {
    forall i, j :: 0 <= i < |a| && 0 <= j < |b| && a[i].slot == b[j].slot ==> !a[i].repeated && !b[j].repeated
  }

  lemma JoinedLists(a: seq<Field>, b: seq<Field>, slots: nat)
    requires Listed(a, slots) && Listed(b, slots) && Across(a, b) && ListsKept(a, b)
    ensures Listed(a + b, slots)
  {
    forall i, j | 0 <= i < j < |a + b|
      ensures Apart((a + b)[i], (a + b)[j])
    {
      if j < |a| {
        assert Apart(a[i], a[j]);
      } else if i < |a| {
        assert Apart(a[i], b[j - |a|]);
      } else {
        assert Apart(b[i - |a|], b[j - |a|]);
      }
    }
  }

  ghost predicate Part(fields: seq<Field>, slots: nat) {
    NamesApart(fields) && forall i :: 0 <= i < |fields| ==> !fields[i].repeated && fields[i].slot < slots
  }

  lemma Joined(a: seq<Field>, b: seq<Field>, slots: nat)
    requires Part(a, slots) && Part(b, slots) && Across(a, b)
    ensures Part(a + b, slots) && Listed(a + b, slots)
  {
    JoinedLists(a, b, slots);
  }

  /** Where two-letter beginnings stand in the alphabet. */
  function Rank(first: char, second: char): int { first as int * 256 + second as int }

  /** The key begins with two letters between these. */
  predicate Begins(key: string, lo: int, hi: int) {
    |key| >= 2 && lo <= Rank(key[0], key[1]) <= hi
  }

  ghost predicate Ranked(fields: seq<Field>, lo: int, hi: int) {
    forall i :: 0 <= i < |fields| ==> Begins(fields[i].camel, lo, hi) && Begins(fields[i].snake, lo, hi)
  }

  lemma JoinedByRank(a: seq<Field>, b: seq<Field>, slots: nat, lo: int, mid: int, next: int, hi: int)
    requires Part(a, slots) && Part(b, slots) && Ranked(a, lo, mid) && Ranked(b, next, hi) && lo <= mid < next <= hi
    ensures Part(a + b, slots) && Listed(a + b, slots) && Ranked(a + b, lo, hi)
  {
    Joined(a, b, slots);
  }

  lemma TasksFromAdValid()
    ensures Part(TasksFromAd(0), 1)
  {
  }

  lemma TasksFromBuValid()
    ensures Part(TasksFromBu(0), 1)
  {
  }

  lemma TasksFromCrValid()
    ensures Part(TasksFromCr(0), 1)
  {
  }

  lemma TasksFromFrValid()
    ensures Part(TasksFromFr(0), 1)
  {
  }

  lemma TasksFromJuValid()
    ensures Part(TasksFromJu(0), 1)
  {
  }

  lemma TasksFromLsValid()
    ensures Part(TasksFromLs(0), 1)
  {
  }

  lemma TasksFromMeValid()
    ensures Part(TasksFromMe(0), 1)
  {
  }

  lemma TasksFromOnValid()
    ensures Part(TasksFromOn(0), 1)
  {
  }

  lemma TasksFromPuValid()
    ensures Part(TasksFromPu(0), 1)
  {
  }

  lemma TasksFromSeValid()
    ensures Part(TasksFromSe(0), 1)
  {
  }

  lemma TasksFromSpValid()
    ensures Part(TasksFromSp(0), 1)
  {
  }

  lemma TasksFromTuValid()
    ensures Part(TasksFromTu(0), 1)
  {
  }

  lemma TasksFromVwValid()
    ensures Part(TasksFromVw(0), 1)
  {
  }

  lemma TasksFromAdRanked()
    ensures Ranked(TasksFromAd(0), Rank('a', 'd'), Rank('b', 'o'))
  {
  }

  lemma TasksFromBuRanked()
    ensures Ranked(TasksFromBu(0), Rank('b', 'u'), Rank('c', 'o'))
  {
  }

  lemma TasksFromCrRanked()
    ensures Ranked(TasksFromCr(0), Rank('c', 'r'), Rank('e', 'w'))
  {
  }

  lemma TasksFromFrRanked()
    ensures Ranked(TasksFromFr(0), Rank('f', 'r'), Rank('j', 's'))
  {
  }

  lemma TasksFromJuRanked()
    ensures Ranked(TasksFromJu(0), Rank('j', 'u'), Rank('l', 'p'))
  {
  }

  lemma TasksFromLsRanked()
    ensures Ranked(TasksFromLs(0), Rank('l', 's'), Rank('m', 'a'))
  {
  }

  lemma TasksFromMeRanked()
    ensures Ranked(TasksFromMe(0), Rank('m', 'e'), Rank('m', 'u'))
  {
  }

  lemma TasksFromOnRanked()
    ensures Ranked(TasksFromOn(0), Rank('o', 'n'), Rank('p', 'o'))
  {
  }

  lemma TasksFromPuRanked()
    ensures Ranked(TasksFromPu(0), Rank('p', 'u'), Rank('s', 'a'))
  {
  }

  lemma TasksFromSeRanked()
    ensures Ranked(TasksFromSe(0), Rank('s', 'e'), Rank('s', 'o'))
  {
  }

  lemma TasksFromSpRanked()
    ensures Ranked(TasksFromSp(0), Rank('s', 'p'), Rank('s', 'y'))
  {
  }

  lemma TasksFromTuRanked()
    ensures Ranked(TasksFromTu(0), Rank('t', 'u'), Rank('v', 'a'))
  {
  }

  lemma TasksFromVwRanked()
    ensures Ranked(TasksFromVw(0), Rank('v', 'w'), Rank('x', 's'))
  {
  }

  lemma TaskFieldsValid()
    ensures Listed(TaskFields(0), 1)
  {
    TasksFromAdValid();
    TasksFromAdRanked();
    TasksFromBuValid();
    TasksFromBuRanked();
    TasksFromCrValid();
    TasksFromCrRanked();
    TasksFromFrValid();
    TasksFromFrRanked();
    TasksFromJuValid();
    TasksFromJuRanked();
    TasksFromLsValid();
    TasksFromLsRanked();
    TasksFromMeValid();
    TasksFromMeRanked();
    TasksFromOnValid();
    TasksFromOnRanked();
    TasksFromPuValid();
    TasksFromPuRanked();
    TasksFromSeValid();
    TasksFromSeRanked();
    TasksFromSpValid();
    TasksFromSpRanked();
    TasksFromTuValid();
    TasksFromTuRanked();
    TasksFromVwValid();
    TasksFromVwRanked();
    var all := TasksFromAd(0);
    JoinedByRank(all, TasksFromBu(0), 1, Rank('a', 'd'), Rank('b', 'o'), Rank('b', 'u'), Rank('c', 'o'));
    all := all + TasksFromBu(0);
    JoinedByRank(all, TasksFromCr(0), 1, Rank('a', 'd'), Rank('c', 'o'), Rank('c', 'r'), Rank('e', 'w'));
    all := all + TasksFromCr(0);
    JoinedByRank(all, TasksFromFr(0), 1, Rank('a', 'd'), Rank('e', 'w'), Rank('f', 'r'), Rank('j', 's'));
    all := all + TasksFromFr(0);
    JoinedByRank(all, TasksFromJu(0), 1, Rank('a', 'd'), Rank('j', 's'), Rank('j', 'u'), Rank('l', 'p'));
    all := all + TasksFromJu(0);
    JoinedByRank(all, TasksFromLs(0), 1, Rank('a', 'd'), Rank('l', 'p'), Rank('l', 's'), Rank('m', 'a'));
    all := all + TasksFromLs(0);
    JoinedByRank(all, TasksFromMe(0), 1, Rank('a', 'd'), Rank('m', 'a'), Rank('m', 'e'), Rank('m', 'u'));
    all := all + TasksFromMe(0);
    JoinedByRank(all, TasksFromOn(0), 1, Rank('a', 'd'), Rank('m', 'u'), Rank('o', 'n'), Rank('p', 'o'));
    all := all + TasksFromOn(0);
    JoinedByRank(all, TasksFromPu(0), 1, Rank('a', 'd'), Rank('p', 'o'), Rank('p', 'u'), Rank('s', 'a'));
    all := all + TasksFromPu(0);
    JoinedByRank(all, TasksFromSe(0), 1, Rank('a', 'd'), Rank('s', 'a'), Rank('s', 'e'), Rank('s', 'o'));
    all := all + TasksFromSe(0);
    JoinedByRank(all, TasksFromSp(0), 1, Rank('a', 'd'), Rank('s', 'o'), Rank('s', 'p'), Rank('s', 'y'));
    all := all + TasksFromSp(0);
    JoinedByRank(all, TasksFromTu(0), 1, Rank('a', 'd'), Rank('s', 'y'), Rank('t', 'u'), Rank('v', 'a'));
    all := all + TasksFromTu(0);
    JoinedByRank(all, TasksFromVw(0), 1, Rank('a', 'd'), Rank('v', 'a'), Rank('v', 'w'), Rank('x', 's'));
    all := all + TasksFromVw(0);
  }

  lemma ComparisonOutcomesValid()
    ensures Part(ComparisonOutcomes(0), 9)
  {
  }

  lemma ComparisonSidesValid()
    ensures Part(ComparisonSides(7), 9)
  {
  }

  lemma ComparisonTaskAcross()
    ensures Across(ComparisonOutcomes(0), ComparisonSides(7))
  {
  }

  lemma ComparisonTaskFieldsValid()
    ensures Listed(ComparisonTaskFields(0), 9)
  {
    ComparisonOutcomesValid();
    ComparisonSidesValid();
    ComparisonTaskAcross();
    Joined(ComparisonOutcomes(0), ComparisonSides(7), 9);
  }

  lemma LpPriceSourcesValid()
    ensures Listed(LpPriceSources(0), 4)
  {
  }

  lemma LpPoolAddressesValid()
    ensures Part(LpPoolAddresses(3), 4) && Listed(LpPoolAddresses(3), 4)
  {
  }

  lemma LpTokenPriceAcross()
    ensures Across(LpPriceSources(0), LpPoolAddresses(3)) && ListsKept(LpPriceSources(0), LpPoolAddresses(3))
  {
  }

  lemma LpTokenPriceTaskFieldsValid()
    ensures Listed(LpTokenPriceTaskFields(0), 4)
  {
    LpPriceSourcesValid();
    LpPoolAddressesValid();
    LpTokenPriceAcross();
    JoinedLists(LpPriceSources(0), LpPoolAddresses(3), 4);
  }

  lemma OracleConfigsValid()
    ensures Part(OracleConfigs(0), 7)
  {
  }

  lemma OracleAddressesValid()
    ensures Part(OracleAddresses(6), 7)
  {
  }

  lemma OracleTaskAcross()
    ensures Across(OracleConfigs(0), OracleAddresses(6))
  {
  }

  lemma OracleTaskFieldsValid()
    ensures Listed(OracleTaskFields(0), 7)
  {
    OracleConfigsValid();
    OracleAddressesValid();
    OracleTaskAcross();
    Joined(OracleConfigs(0), OracleAddresses(6), 7);
  }

  lemma BoundLimitsValid()
    ensures Part(BoundLimits(0), 8)
  {
  }

  lemma BoundOutcomesValid()
    ensures Part(BoundOutcomes(4), 8)
  {
  }

  lemma BoundTaskAcross()
    ensures Across(BoundLimits(0), BoundOutcomes(4))
  {
  }

  lemma BoundTaskFieldsValid()
    ensures Listed(BoundTaskFields(0), 8)
  {
    BoundLimitsValid();
    BoundOutcomesValid();
    BoundTaskAcross();
    Joined(BoundLimits(0), BoundOutcomes(4), 8);
  }

  lemma JupiterSwapSettingsValid()
    ensures Part(JupiterSwapSettings(0), 6)
  {
  }

  lemma JupiterSwapChoicesValid()
    ensures Part(JupiterSwapChoices(4), 6)
  {
  }

  lemma JupiterSwapTaskAcross()
    ensures Across(JupiterSwapSettings(0), JupiterSwapChoices(4))
  {
  }

  lemma JupiterSwapTaskFieldsValid()
    ensures Listed(JupiterSwapTaskFields(0), 6)
  {
    JupiterSwapSettingsValid();
    JupiterSwapChoicesValid();
    JupiterSwapTaskAcross();
    Joined(JupiterSwapSettings(0), JupiterSwapChoices(4), 6);
  }

  lemma LpExchangeRateSettingsValid()
    ensures Part(LpExchangeRateSettings(0), 4)
  {
  }

  lemma LpExchangeRateAddressesValid()
    ensures Part(LpExchangeRateAddresses(3), 4)
  {
  }

  lemma LpExchangeRateTaskAcross()
    ensures Across(LpExchangeRateSettings(0), LpExchangeRateAddresses(3))
  {
  }

  lemma LpExchangeRateTaskFieldsValid()
    ensures Listed(LpExchangeRateTaskFields(0), 4)
  {
    LpExchangeRateSettingsValid();
    LpExchangeRateAddressesValid();
    LpExchangeRateTaskAcross();
    Joined(LpExchangeRateSettings(0), LpExchangeRateAddresses(3), 4);
  }

  lemma UniswapAmountsValid()
    ensures Part(UniswapAmounts(0), 9)
  {
  }

  lemma UniswapAddressesValid()
    ensures Part(UniswapAddresses(5), 9)
  {
  }

  lemma UniswapExchangeRateTaskAcross()
    ensures Across(UniswapAmounts(0), UniswapAddresses(5))
  {
  }

  lemma UniswapExchangeRateTaskFieldsValid()
    ensures Listed(UniswapExchangeRateTaskFields(0), 9)
  {
    UniswapAmountsValid();
    UniswapAddressesValid();
    UniswapExchangeRateTaskAcross();
    Joined(UniswapAmounts(0), UniswapAddresses(5), 9);
  }

  lemma OracleJobFieldsValid()
    ensures Listed(OracleJobFields(0), 2)
  {
  }

  lemma MedianTaskFieldsValid()
    ensures Listed(MedianTaskFields(0), 4)
  {
  }

  lemma AggregateFieldsValid()
    ensures Listed(AggregateFields(0), 2)
  {
  }

  lemma ConditionalTaskFieldsValid()
    ensures Listed(ConditionalTaskFields(0), 2)
  {
  }

  lemma OperandFieldsValid()
    ensures Listed(OperandFields(0), 1)
  {
  }

  lemma CacheTaskFieldsValid()
    ensures Listed(CacheTaskFields(0), 1)
  {
  }

  lemma CacheItemFieldsValid()
    ensures Listed(CacheItemFields(0), 2)
  {
  }

  lemma XStepPriceTaskFieldsValid()
    ensures Listed(XStepPriceTaskFields(0), 1)
  {
  }

  lemma ProviderFieldsValid()
    ensures Listed(ProviderFields(0), 1)
  {
  }

  lemma PythConfigsFieldsValid()
    ensures Listed(PythConfigsFields(0), 3)
  {
  }

  lemma SwitchboardConfigsFieldsValid()
    ensures Listed(SwitchboardConfigsFields(0), 2)
  {
  }

  lemma NoFieldsValid()
    ensures Listed(NoFields(0), 0)
  {
  }

  lemma TwapTaskFieldsValid()
    ensures Listed(TwapTaskFields(0), 6)
  {
  }

  lemma CronParseTaskFieldsValid()
    ensures Listed(CronParseTaskFields(0), 3)
  {
  }

  lemma HttpTaskFieldsValid()
    ensures Listed(HttpTaskFields(0), 4)
  {
  }

  lemma HeaderFieldsValid()
    ensures Listed(HeaderFields(0), 2)
  {
  }

  lemma JsonParseTaskFieldsValid()
    ensures Listed(JsonParseTaskFields(0), 2)
  {
  }

  lemma FilterListFieldsValid()
    ensures Listed(FilterListFields(0), 1)
  {
  }

  lemma ValueTaskFieldsValid()
    ensures Listed(ValueTaskFields(0), 1)
  {
  }

  lemma AftermathTaskFieldsValid()
    ensures Listed(AftermathTaskFields(0), 4)
  {
  }

  lemma AnchorFetchTaskFieldsValid()
    ensures Listed(AnchorFetchTaskFields(0), 2)
  {
  }

  lemma BitFluxTaskFieldsValid()
    ensures Listed(BitFluxTaskFields(0), 4)
  {
  }

  lemma BufferLayoutParseTaskFieldsValid()
    ensures Listed(BufferLayoutParseTaskFields(0), 3)
  {
  }

  lemma CorexTaskFieldsValid()
    ensures Listed(CorexTaskFields(0), 3)
  {
  }

  lemma CurveFinanceTaskFieldsValid()
    ensures Listed(CurveFinanceTaskFields(0), 4)
  {
  }

  lemma EtherfuseTaskFieldsValid()
    ensures Listed(EtherfuseTaskFields(0), 1)
  {
  }

  lemma EwmaTaskFieldsValid()
    ensures Listed(EwmaTaskFields(0), 3)
  {
  }

  lemma FragmetricTaskFieldsValid()
    ensures Listed(FragmetricTaskFields(0), 1)
  {
  }

  lemma GlyphTaskFieldsValid()
    ensures Listed(GlyphTaskFields(0), 2)
  {
  }

  lemma ChatConfigFieldsValid()
    ensures Listed(ChatConfigFields(0), 4)
  {
  }

  lemma HistoryFunctionTaskFieldsValid()
    ensures Listed(HistoryFunctionTaskFields(0), 3)
  {
  }

  lemma LendingRateTaskFieldsValid()
    ensures Listed(LendingRateTaskFields(0), 3)
  {
  }

  lemma LlmTaskFieldsValid()
    ensures Listed(LlmTaskFields(0), 1)
  {
  }

  lemma LstHistoricalYieldTaskFieldsValid()
    ensures Listed(LstHistoricalYieldTaskFields(0), 3)
  {
  }

  lemma MangoPerpMarketTaskFieldsValid()
    ensures Listed(MangoPerpMarketTaskFields(0), 1)
  {
  }

  lemma MapleFinanceTaskFieldsValid()
    ensures Listed(MapleFinanceTaskFields(0), 1)
  {
  }

  lemma MeteoraSwapTaskFieldsValid()
    ensures Listed(MeteoraSwapTaskFields(0), 2)
  {
  }

  lemma OndoUsdyTaskFieldsValid()
    ensures Listed(OndoUsdyTaskFields(0), 1)
  {
  }

  lemma AmountSwapFieldsValid()
    ensures Listed(AmountSwapFields(0), 5)
  {
  }

  lemma PerpMarketTaskFieldsValid()
    ensures Listed(PerpMarketTaskFields(0), 1)
  {
  }

  lemma PowTaskFieldsValid()
    ensures Listed(PowTaskFields(0), 1)
  {
  }

  lemma PumpAmmTaskFieldsValid()
    ensures Listed(PumpAmmTaskFields(0), 4)
  {
  }

  lemma RegexExtractTaskFieldsValid()
    ensures Listed(RegexExtractTaskFields(0), 2)
  {
  }

  lemma RoundTaskFieldsValid()
    ensures Listed(RoundTaskFields(0), 2)
  {
  }

  lemma SanctumLstPriceTaskFieldsValid()
    ensures Listed(SanctumLstPriceTaskFields(0), 1)
  {
  }

  lemma SecretsTaskFieldsValid()
    ensures Listed(SecretsTaskFields(0), 2)
  {
  }

  lemma SerumSwapTaskFieldsValid()
    ensures Listed(SerumSwapTaskFields(0), 1)
  {
  }

  lemma SolanaAccountDataFetchTaskFieldsValid()
    ensures Listed(SolanaAccountDataFetchTaskFields(0), 2)
  {
  }

  lemma SplStakePoolTaskFieldsValid()
    ensures Listed(SplStakePoolTaskFields(0), 1)
  {
  }

  lemma SplTokenParseTaskFieldsValid()
    ensures Listed(SplTokenParseTaskFields(0), 1)
  {
  }

  lemma UnixTimeTaskFieldsValid()
    ensures Listed(UnixTimeTaskFields(0), 1)
  {
  }

  lemma VwapTaskFieldsValid()
    ensures Listed(VwapTaskFields(0), 3)
  {
  }

  lemma WebsocketTaskFieldsValid()
    ensures Listed(WebsocketTaskFields(0), 4)
  {
  }

  lemma FromOracleJobValid(m: MessageName)
    requires m.OracleJob? || m.Task?
    ensures Listed(FieldsOf(m), SlotsOf(m))
  {
    match m
    case OracleJob => OracleJobFieldsValid();
    case Task => TaskFieldsValid();
    case _ =>
  }

  lemma FromMedianTaskValid(m: MessageName)
    requires m.MedianTask? || m.MeanTask? || m.MaxTask? || m.MinTask?
    ensures Listed(FieldsOf(m), SlotsOf(m))
  {
    match m
    case MedianTask => MedianTaskFieldsValid();
    case MeanTask | MaxTask | MinTask => AggregateFieldsValid();
    case _ =>
  }

  lemma FromConditionalTaskValid(m: MessageName)
    requires m.ConditionalTask? || m.ComparisonTask?
    ensures Listed(FieldsOf(m), SlotsOf(m))
  {
    match m
    case ConditionalTask => ConditionalTaskFieldsValid();
    case ComparisonTask => ComparisonTaskFieldsValid();
    case _ =>
  }

  lemma FromAddTaskValid(m: MessageName)
    requires m.AddTask? || m.SubtractTask? || m.MultiplyTask? || m.DivideTask? || m.CacheTask?
    ensures Listed(FieldsOf(m), SlotsOf(m))
  {
    match m
    case AddTask | SubtractTask | MultiplyTask | DivideTask => OperandFieldsValid();
    case CacheTask => CacheTaskFieldsValid();
    case _ =>
  }

  lemma FromCacheItemValid(m: MessageName)
    requires m.CacheItem? || m.LpTokenPriceTask?
    ensures Listed(FieldsOf(m), SlotsOf(m))
  {
    match m
    case CacheItem => CacheItemFieldsValid();
    case LpTokenPriceTask => LpTokenPriceTaskFieldsValid();
    case _ =>
  }

  lemma FromXStepPriceTaskValid(m: MessageName)
    requires m.XStepPriceTask? || m.OracleTask?
    ensures Listed(FieldsOf(m), SlotsOf(m))
  {
    match m
    case XStepPriceTask => XStepPriceTaskFieldsValid();
    case OracleTask => OracleTaskFieldsValid();
    case _ =>
  }

  lemma FromChainlinkConfigsValid(m: MessageName)
    requires m.ChainlinkConfigs? || m.TurboEthRedemptionRateTask? || m.PythConfigs?
    ensures Listed(FieldsOf(m), SlotsOf(m))
  {
    match m
    case ChainlinkConfigs | TurboEthRedemptionRateTask => ProviderFieldsValid();
    case PythConfigs => PythConfigsFieldsValid();
    case _ =>
  }

  lemma FromSwitchboardConfigsValid(m: MessageName)
    requires m.SwitchboardConfigs? || m.EdgeConfigs? || m.RedstoneConfigs? || m.MarinadeStateTask?
          || m.SolayerSusdTask? || m.SysclockOffsetTask?
    ensures Listed(FieldsOf(m), SlotsOf(m))
  {
    match m
    case SwitchboardConfigs => SwitchboardConfigsFieldsValid();
    case EdgeConfigs | RedstoneConfigs | MarinadeStateTask | SolayerSusdTask | SysclockOffsetTask => NoFieldsValid();
    case _ =>
  }

  lemma FromTwapTaskValid(m: MessageName)
    requires m.TwapTask? || m.CronParseTask?
    ensures Listed(FieldsOf(m), SlotsOf(m))
  {
    match m
    case TwapTask => TwapTaskFieldsValid();
    case CronParseTask => CronParseTaskFieldsValid();
    case _ =>
  }

  lemma FromHttpTaskValid(m: MessageName)
    requires m.HttpTask? || m.Header?
    ensures Listed(FieldsOf(m), SlotsOf(m))
  {
    match m
    case HttpTask => HttpTaskFieldsValid();
    case Header => HeaderFieldsValid();
    case _ =>
  }

  lemma FromJsonParseTaskValid(m: MessageName)
    requires m.JsonParseTask? || m.BoundTask?
    ensures Listed(FieldsOf(m), SlotsOf(m))
  {
    match m
    case JsonParseTask => JsonParseTaskFieldsValid();
    case BoundTask => BoundTaskFieldsValid();
    case _ =>
  }

  lemma FromJupiterSwapTaskValid(m: MessageName)
    requires m.JupiterSwapTask? || m.FilterList?
    ensures Listed(FieldsOf(m), SlotsOf(m))
  {
    match m
    case JupiterSwapTask => JupiterSwapTaskFieldsValid();
    case FilterList => FilterListFieldsValid();
    case _ =>
  }

  lemma FromValueTaskValid(m: MessageName)
    requires m.ValueTask? || m.AftermathTask?
    ensures Listed(FieldsOf(m), SlotsOf(m))
  {
    match m
    case ValueTask => ValueTaskFieldsValid();
    case AftermathTask => AftermathTaskFieldsValid();
    case _ =>
  }

  lemma FromAnchorFetchTaskValid(m: MessageName)
    requires m.AnchorFetchTask? || m.BitFluxTask?
    ensures Listed(FieldsOf(m), SlotsOf(m))
  {
    match m
    case AnchorFetchTask => AnchorFetchTaskFieldsValid();
    case BitFluxTask => BitFluxTaskFieldsValid();
    case _ =>
  }

  lemma FromBufferLayoutParseTaskValid(m: MessageName)
    requires m.BufferLayoutParseTask? || m.CorexTask?
    ensures Listed(FieldsOf(m), SlotsOf(m))
  {
    match m
    case BufferLayoutParseTask => BufferLayoutParseTaskFieldsValid();
    case CorexTask => CorexTaskFieldsValid();
    case _ =>
  }

  lemma FromCurveFinanceTaskValid(m: MessageName)
    requires m.CurveFinanceTask? || m.EtherfuseTask?
    ensures Listed(FieldsOf(m), SlotsOf(m))
  {
    match m
    case CurveFinanceTask => CurveFinanceTaskFieldsValid();
    case EtherfuseTask => EtherfuseTaskFieldsValid();
    case _ =>
  }

  lemma FromEwmaTaskValid(m: MessageName)
    requires m.EwmaTask? || m.FragmetricTask?
    ensures Listed(FieldsOf(m), SlotsOf(m))
  {
    match m
    case EwmaTask => EwmaTaskFieldsValid();
    case FragmetricTask => FragmetricTaskFieldsValid();
    case _ =>
  }

  lemma FromGlyphTaskValid(m: MessageName)
    requires m.GlyphTask? || m.GrokXaiConfig? || m.GroqConfig? || m.OpenAiConfig?
    ensures Listed(FieldsOf(m), SlotsOf(m))
  {
    match m
    case GlyphTask => GlyphTaskFieldsValid();
    case GrokXaiConfig | GroqConfig | OpenAiConfig => ChatConfigFieldsValid();
    case _ =>
  }

  lemma FromHistoryFunctionTaskValid(m: MessageName)
    requires m.HistoryFunctionTask? || m.LendingRateTask?
    ensures Listed(FieldsOf(m), SlotsOf(m))
  {
    match m
    case HistoryFunctionTask => HistoryFunctionTaskFieldsValid();
    case LendingRateTask => LendingRateTaskFieldsValid();
    case _ =>
  }

  lemma FromLlmTaskValid(m: MessageName)
    requires m.LlmTask? || m.LpExchangeRateTask?
    ensures Listed(FieldsOf(m), SlotsOf(m))
  {
    match m
    case LlmTask => LlmTaskFieldsValid();
    case LpExchangeRateTask => LpExchangeRateTaskFieldsValid();
    case _ =>
  }

  lemma FromLstHistoricalYieldTaskValid(m: MessageName)
    requires m.LstHistoricalYieldTask? || m.MangoPerpMarketTask?
    ensures Listed(FieldsOf(m), SlotsOf(m))
  {
    match m
    case LstHistoricalYieldTask => LstHistoricalYieldTaskFieldsValid();
    case MangoPerpMarketTask => MangoPerpMarketTaskFieldsValid();
    case _ =>
  }

  lemma FromMapleFinanceTaskValid(m: MessageName)
    requires m.MapleFinanceTask? || m.MeteoraSwapTask?
    ensures Listed(FieldsOf(m), SlotsOf(m))
  {
    match m
    case MapleFinanceTask => MapleFinanceTaskFieldsValid();
    case MeteoraSwapTask => MeteoraSwapTaskFieldsValid();
    case _ =>
  }

  lemma FromOndoUsdyTaskValid(m: MessageName)
    requires m.OndoUsdyTask? || m.PancakeswapExchangeRateTask? || m.SushiswapExchangeRateTask?
    ensures Listed(FieldsOf(m), SlotsOf(m))
  {
    match m
    case OndoUsdyTask => OndoUsdyTaskFieldsValid();
    case PancakeswapExchangeRateTask | SushiswapExchangeRateTask => AmountSwapFieldsValid();
    case _ =>
  }

  lemma FromPerpMarketTaskValid(m: MessageName)
    requires m.PerpMarketTask? || m.PowTask?
    ensures Listed(FieldsOf(m), SlotsOf(m))
  {
    match m
    case PerpMarketTask => PerpMarketTaskFieldsValid();
    case PowTask => PowTaskFieldsValid();
    case _ =>
  }

  lemma FromPumpAmmTaskValid(m: MessageName)
    requires m.PumpAmmTask? || m.RegexExtractTask?
    ensures Listed(FieldsOf(m), SlotsOf(m))
  {
    match m
    case PumpAmmTask => PumpAmmTaskFieldsValid();
    case RegexExtractTask => RegexExtractTaskFieldsValid();
    case _ =>
  }

  lemma FromRoundTaskValid(m: MessageName)
    requires m.RoundTask? || m.SanctumLstPriceTask?
    ensures Listed(FieldsOf(m), SlotsOf(m))
  {
    match m
    case RoundTask => RoundTaskFieldsValid();
    case SanctumLstPriceTask => SanctumLstPriceTaskFieldsValid();
    case _ =>
  }

  lemma FromSecretsTaskValid(m: MessageName)
    requires m.SecretsTask? || m.SerumSwapTask?
    ensures Listed(FieldsOf(m), SlotsOf(m))
  {
    match m
    case SecretsTask => SecretsTaskFieldsValid();
    case SerumSwapTask => SerumSwapTaskFieldsValid();
    case _ =>
  }

  lemma FromSolanaAccountDataFetchTaskValid(m: MessageName)
    requires m.SolanaAccountDataFetchTask? || m.SplStakePoolTask?
    ensures Listed(FieldsOf(m), SlotsOf(m))
  {
    match m
    case SolanaAccountDataFetchTask => SolanaAccountDataFetchTaskFieldsValid();
    case SplStakePoolTask => SplStakePoolTaskFieldsValid();
    case _ =>
  }

  lemma FromSplTokenParseTaskValid(m: MessageName)
    requires m.SplTokenParseTask? || m.UniswapExchangeRateTask?
    ensures Listed(FieldsOf(m), SlotsOf(m))
  {
    match m
    case SplTokenParseTask => SplTokenParseTaskFieldsValid();
    case UniswapExchangeRateTask => UniswapExchangeRateTaskFieldsValid();
    case _ =>
  }

  lemma FromUnixTimeTaskValid(m: MessageName)
    requires m.UnixTimeTask? || m.VwapTask?
    ensures Listed(FieldsOf(m), SlotsOf(m))
  {
    match m
    case UnixTimeTask => UnixTimeTaskFieldsValid();
    case VwapTask => VwapTaskFieldsValid();
    case _ =>
  }

  lemma FromWebsocketTaskValid(m: MessageName)
    requires m.WebsocketTask?
    ensures Listed(FieldsOf(m), SlotsOf(m))
  {
    match m
    case WebsocketTask => WebsocketTaskFieldsValid();
    case _ =>
  }

  lemma MessageValid(m: MessageName)
    ensures Listed(FieldsOf(m), SlotsOf(m))
  {
    match m
    case OracleJob | Task => FromOracleJobValid(m);
    case MedianTask | MeanTask | MaxTask | MinTask => FromMedianTaskValid(m);
    case ConditionalTask | ComparisonTask => FromConditionalTaskValid(m);
    case AddTask | SubtractTask | MultiplyTask | DivideTask | CacheTask => FromAddTaskValid(m);
    case CacheItem | LpTokenPriceTask => FromCacheItemValid(m);
    case XStepPriceTask | OracleTask => FromXStepPriceTaskValid(m);
    case ChainlinkConfigs | TurboEthRedemptionRateTask | PythConfigs => FromChainlinkConfigsValid(m);
    case SwitchboardConfigs | EdgeConfigs | RedstoneConfigs | MarinadeStateTask | SolayerSusdTask
      | SysclockOffsetTask => FromSwitchboardConfigsValid(m);
    case TwapTask | CronParseTask => FromTwapTaskValid(m);
    case HttpTask | Header => FromHttpTaskValid(m);
    case JsonParseTask | BoundTask => FromJsonParseTaskValid(m);
    case JupiterSwapTask | FilterList => FromJupiterSwapTaskValid(m);
    case ValueTask | AftermathTask => FromValueTaskValid(m);
    case AnchorFetchTask | BitFluxTask => FromAnchorFetchTaskValid(m);
    case BufferLayoutParseTask | CorexTask => FromBufferLayoutParseTaskValid(m);
    case CurveFinanceTask | EtherfuseTask => FromCurveFinanceTaskValid(m);
    case EwmaTask | FragmetricTask => FromEwmaTaskValid(m);
    case GlyphTask | GrokXaiConfig | GroqConfig | OpenAiConfig => FromGlyphTaskValid(m);
    case HistoryFunctionTask | LendingRateTask => FromHistoryFunctionTaskValid(m);
    case LlmTask | LpExchangeRateTask => FromLlmTaskValid(m);
    case LstHistoricalYieldTask | MangoPerpMarketTask => FromLstHistoricalYieldTaskValid(m);
    case MapleFinanceTask | MeteoraSwapTask => FromMapleFinanceTaskValid(m);
    case OndoUsdyTask | PancakeswapExchangeRateTask | SushiswapExchangeRateTask => FromOndoUsdyTaskValid(m);
    case PerpMarketTask | PowTask => FromPerpMarketTaskValid(m);
    case PumpAmmTask | RegexExtractTask => FromPumpAmmTaskValid(m);
    case RoundTask | SanctumLstPriceTask => FromRoundTaskValid(m);
    case SecretsTask | SerumSwapTask => FromSecretsTaskValid(m);
    case SolanaAccountDataFetchTask | SplStakePoolTask => FromSolanaAccountDataFetchTaskValid(m);
    case SplTokenParseTask | UniswapExchangeRateTask => FromSplTokenParseTaskValid(m);
    case UnixTimeTask | VwapTask => FromUnixTimeTaskValid(m);
    case WebsocketTask => FromWebsocketTaskValid(m);
  }

  lemma JoinedVariants(a: seq<Variant>, b: seq<Variant>)
    requires ValidEnum(a) && ValidEnum(b)
    requires forall i, j :: 0 <= i < |a| && 0 <= j < |b| ==> a[i].name != b[j].name && a[i].number != b[j].number
    ensures ValidEnum(a + b)
  {
  }

  lemma NarrowBufferTypesValid()
    ensures ValidEnum(NarrowBufferTypes(0))
  {
  }

  lemma WideBufferTypesValid()
    ensures ValidEnum(WideBufferTypes(0))
  {
  }

  lemma BufferParseTypeValid()
    ensures ValidEnum(VariantsOf(BufferParseType))
  {
    NarrowBufferTypesValid();
    WideBufferTypesValid();
    JoinedVariants(NarrowBufferTypes(0), WideBufferTypes(0));
  }

  lemma FromBufferLayoutParseEndianValid(e: EnumName)
    requires e.BufferLayoutParseEndian? || e.ComparisonOperation? || e.CronParseClockType?
          || e.CurveFinanceChain? || e.EtherfuseToken?
    ensures ValidEnum(VariantsOf(e))
  {
  }

  lemma FromFragmetricTokenValid(e: EnumName)
    requires e.FragmetricToken? || e.HistoryFunctionMethod? || e.HttpMethod? || e.JsonParseAggregationMethod?
          || e.JupiterSwapVersion?
    ensures ValidEnum(VariantsOf(e))
  {
  }

  lemma FromLendingRateFieldValid(e: EnumName)
    requires e.LendingRateField? || e.LpExchangeRateChain? || e.LstHistoricalYieldOperation?
          || e.MapleFinanceMethod? || e.MeteoraSwapType?
    ensures ValidEnum(VariantsOf(e))
  {
  }

  lemma FromOndoUsdyStrategyValid(e: EnumName)
    requires e.OndoUsdyStrategy? || e.RoundMethod? || e.SolanaAccountDataFetchNetwork?
          || e.UniswapExchangeRateVersion?
    ensures ValidEnum(VariantsOf(e))
  {
  }

  lemma EnumValid(e: EnumName)
    ensures ValidEnum(VariantsOf(e))
  {
    match e
    case BufferParseType => BufferParseTypeValid();
    case BufferLayoutParseEndian | ComparisonOperation | CronParseClockType | CurveFinanceChain | EtherfuseToken =>
      FromBufferLayoutParseEndianValid(e);
    case FragmetricToken | HistoryFunctionMethod | HttpMethod | JsonParseAggregationMethod | JupiterSwapVersion =>
      FromFragmetricTokenValid(e);
    case LendingRateField | LpExchangeRateChain | LstHistoricalYieldOperation | MapleFinanceMethod
      | MeteoraSwapType => FromLendingRateFieldValid(e);
    case OndoUsdyStrategy | RoundMethod | SolanaAccountDataFetchNetwork | UniswapExchangeRateVersion =>
      FromOndoUsdyStrategyValid(e);
  }

  /** The job descriptor has unambiguous keys, enum names and numbers, and a place for every field. */
  lemma JobDescriptorValid(text: NumberText)
    ensures Valid(JobDescriptor(text))
  {
    var d := JobDescriptor(text);
    forall m
      ensures ValidMessage(d.fields(m))
      ensures forall i :: 0 <= i < |d.fields(m)| ==> d.fields(m)[i].slot < d.slots(m)
    {
      MessageValid(m);
    }
    forall e
      ensures ValidEnum(d.variants(e))
    {
      EnumValid(e);
    }
  }
}
