/**
  The wallet's side of a mix, end to end: from the `--output` arguments and the chosen outpoints to the
  transaction, and on to what the indexer makes of that transaction.
  */
module WalletMix {
  import opened Prelude
  import opened Tokens
  import opened Storage
  import opened TableInvariant
  import opened Transactions
  import opened Spans
  import opened MixPayload
  import opened MixRouting
  import opened Parser
  import opened Accounting
  import opened SingleHolder
  import opened Psbt
  import opened WalletTokens
  import opened Delivery
  import Payload
  import MixDigest
  import RegisterDigest
  import RangeText
  import Text
  import Ledger

  // ---------------------------------------------------------------------------
  // The requested outputs
  // ---------------------------------------------------------------------------

  /** What follows the colon of an `--output` argument. */
  datatype Selection = Complement | Listed(ranges: seq<IndexRange>) | Malformed

  /** One `--output` argument, read; `address` is the script of the address, when it parses for this network. */
  datatype MixItem = MixItem(address: Option<seq<byte>>, selection: Selection)

  function LowerChar(c: char): char {
    if 'A' <= c <= 'Z' then (c as int + 32) as char else c
  }

  /** `eq_ignore_ascii_case` against a lower-case word. */
  predicate IsWord(text: string, word: string) {
    |text| == |word| && forall i | 0 <= i < |text| :: LowerChar(text[i]) == word[i]
  }

  predicate MeansComplement(text: string) {
    IsWord(text, "complement") || IsWord(text, "rest") || text == "*"
  }

  ghost function SelectionOf(text: string): Selection {
    if MeansComplement(text) then Complement
    else match RangeText.ParseRanges(text, RangeText.IndexPart, 0)
      case Ok(ranges) => Listed(ranges)
      case Err(_) => Malformed
  }

  /** The argument up to its first colon is an address, the rest a selection. */
  ghost function ItemOf(arg: string, addressOf: string -> Option<seq<byte>>): MixItem {
    match Text.SplitOnce(arg, ":")
    case None => MixItem(None, Malformed)
    case Some((address, text)) => MixItem(addressOf(address), SelectionOf(text))
  }

  ghost function ItemsOf(args: seq<string>, addressOf: string -> Option<seq<byte>>): seq<MixItem> {
    seq(|args|, k requires 0 <= k < |args| => ItemOf(args[k], addressOf))
  }

  /** The text is the word, up to the case of its letters. */
  predicate SpellsWord(text: string, word: string) {
    |text| == |word|
    && forall i | 0 <= i < |word| :: text[i] == word[i] || text[i] as int + 32 == word[i] as int
  }

  lemma UpToCase(text: string, word: string)
    requires forall i | 0 <= i < |word| :: 'a' <= word[i] <= 'z'
    ensures IsWord(text, word) <==> SpellsWord(text, word)
  {
  }

  /** "*", and "rest" and "complement" in any case, ask for the complement; no other text does. */
  lemma ComplementWords(text: string)
    ensures SelectionOf(text).Complement?
       <==> text == "*" || SpellsWord(text, "rest") || SpellsWord(text, "complement")
  {
    UpToCase(text, "rest");
    UpToCase(text, "complement");
  }

  /** An argument is an address, a colon, and a selection; without a colon it is malformed. */
  lemma ArgumentReads(address: string, text: string, addressOf: string -> Option<seq<byte>>)
    requires Text.Free(address, ':')
    ensures ItemOf(address + ":" + text, addressOf) == MixItem(addressOf(address), SelectionOf(text))
    ensures ItemOf(address, addressOf).selection.Malformed?
  {
    Text.SplitOnceAt(address, ":", text);
    Text.SplitOnceNowhere(address, ":");
  }

  /** A written list of disjoint ranges of indices selects those ranges; any other list of them is refused. */
  lemma RangesRead(forms: seq<RangeText.IndexForm>)
    requires forms != []
    ensures SelectionOf(Text.Join(RangeText.FormTexts(forms), ','))
         == if && (forall k | 0 <= k < |forms| :: RangeText.WfForm(forms[k]))
               && NoSharedIndex(RangeText.FormSpans(forms), Itself, 0)
            then Listed(RangeText.FormSpans(forms)) else Malformed
  {
    hide RangeText.ParseRanges, RangeText.FormTexts, RangeText.FormSpans, RangeText.WfForm, Text.Join;
    RangeText.ListReads(forms);
  }

  method ReadSelection(text: string) returns (s: Selection)
    ensures s == SelectionOf(text)
  {
    if MeansComplement(text) {
      return Complement;
    }
    var parsed := RangeText.IndexRangesFromStr(text);
    return if parsed.Ok? then Listed(parsed.value) else Malformed;
  }

  predicate ItemParses(item: MixItem) {
    item.address.Some? && !item.selection.Malformed?
  }

  function RangesAsked(item: MixItem): seq<IndexRange> {
    if item.selection.Listed? then item.selection.ranges else []
  }

  function FirstComplement(items: seq<MixItem>): nat {
    if items == [] || items[0].selection.Complement? then 0 else 1 + FirstComplement(items[1..])
  }

  function RequestedMix(items: seq<MixItem>): MixData {
    MixData(seq(|items|, k requires 0 <= k < |items| => RangesAsked(items[k])), FirstComplement(items))
  }

  function ScriptOf(item: MixItem): seq<byte>
    requires ItemParses(item)
  {
    item.address.value
  }

  function ScriptsOf(items: seq<MixItem>): seq<seq<byte>>
    requires forall k | 0 <= k < |items| :: ItemParses(items[k])
  {
    seq(|items|, k requires 0 <= k < |items| => ScriptOf(items[k]))
  }

  predicate IsComplement(items: seq<MixItem>, k: nat) {
    k < |items| && items[k].selection.Complement?
  }

  /** Everything parses, exactly one output takes the rest, and the ranges make a valid mix. */
  ghost predicate WellFormedRequest(items: seq<MixItem>) {
    && (forall k | 0 <= k < |items| :: ItemParses(items[k]))
    && OneComplement(items)
    && ValidBasic(RequestedMix(items))
  }

  lemma {:induction false} FirstComplementIs(items: seq<MixItem>, c: nat)
    requires IsComplement(items, c) && forall k | 0 <= k < c :: !IsComplement(items, k)
    ensures FirstComplement(items) == c
    decreases c
  {
    if c > 0 {
      assert !IsComplement(items, 0);
      forall k | 0 <= k < c - 1 ensures !IsComplement(items[1..], k) {
        assert !IsComplement(items, k + 1);
      }
      FirstComplementIs(items[1..], c - 1);
    }
  }

  ghost predicate OneComplement(items: seq<MixItem>) {
    exists c: nat :: IsComplement(items, c) && forall k | IsComplement(items, k) :: k == c
  }

  lemma ParsedRequest(
    items: seq<MixItem>, addresses: seq<seq<byte>>, ranges: seq<seq<IndexRange>>, c: nat)
    requires |addresses| == |ranges| == |items|
    requires forall k | 0 <= k < |items| ::
      ItemParses(items[k]) && addresses[k] == ScriptOf(items[k]) && ranges[k] == RangesAsked(items[k])
    requires IsComplement(items, c) && forall k | IsComplement(items, k) :: k == c
    ensures MixData(ranges, c) == RequestedMix(items) && addresses == ScriptsOf(items)
    ensures OneComplement(items)
  {
    FirstComplementIs(items, c);
  }

  method ParseMixOutputs(args: seq<string>, addressOf: string -> Option<seq<byte>>)
    returns (r: Result<(seq<seq<byte>>, MixData), WalletError>)
    ensures r.Ok? <==> WellFormedRequest(ItemsOf(args, addressOf))
    ensures r.Ok? ==> r.value == (ScriptsOf(ItemsOf(args, addressOf)), RequestedMix(ItemsOf(args, addressOf)))
  {
    hide ValidBasic, RequestedMix, ScriptsOf, SelectionOf, Text.SplitOnce;
    ghost var items := ItemsOf(args, addressOf);
    if |args| == 0 {
      return Err(WalletError);
    }
    var addresses: seq<seq<byte>> := [];
    var ranges: seq<seq<IndexRange>> := [];
    var complementIndex: Option<nat> := None;
    for i := 0 to |args|
      invariant |addresses| == |ranges| == i
      invariant forall k | 0 <= k < i ::
        ItemParses(items[k]) && addresses[k] == ScriptOf(items[k]) && ranges[k] == RangesAsked(items[k])
      invariant complementIndex.Some? ==> complementIndex.value < i && IsComplement(items, complementIndex.value)
      invariant forall k | 0 <= k < i && IsComplement(items, k) :: complementIndex == Some(k)
    {
      assert items[i] == ItemOf(args[i], addressOf);
      var halves := Text.SplitOnce(args[i], ":");
      if halves.None? {
        assert !ItemParses(items[i]);
        return Err(WalletError);
      }
      var address := addressOf(halves.value.0);
      if address.None? {
        assert !ItemParses(items[i]);
        return Err(WalletError);
      }
      var selection := ReadSelection(halves.value.1);
      match selection {
        case Complement =>
          if complementIndex.Some? {
            assert IsComplement(items, i) && IsComplement(items, complementIndex.value);
            return Err(WalletError);
          }
          complementIndex := Some(i);
          addresses := addresses + [address.value];
          ranges := ranges + [[]];
        case Listed(listed) =>
          addresses := addresses + [address.value];
          ranges := ranges + [listed];
        case Malformed =>
          assert !ItemParses(items[i]);
          return Err(WalletError);
      }
    }
    if complementIndex.None? {
      return Err(WalletError);
    }
    ParsedRequest(items, addresses, ranges, complementIndex.value);
    var data := MixData(ranges, complementIndex.value);
    var valid := ValidateBasic(data);
    if valid.Err? {
      return Err(WalletError);
    }
    return Ok((addresses, data));
  }

  ghost predicate Lists(item: MixItem, i: nat) {
    item.selection.Listed? && exists r | r in item.selection.ranges :: r.start <= i < r.end
  }

  /** Address `k` is to get an index exactly when it lists it; the complement, when nobody does. */
  lemma AskedIsReceived(items: seq<MixItem>, k: nat, i: nat)
    requires WellFormedRequest(items) && k < |items|
    ensures Receives(RequestedMix(items), k, i)
      <==> if items[k].selection.Complement? then forall j | 0 <= j < |items| :: !Lists(items[j], i)
           else Lists(items[k], i)
  {
    var d := RequestedMix(items);
    var c: nat :| IsComplement(items, c) && forall k | IsComplement(items, k) :: k == c;
    FirstComplementIs(items, c);
    assert IsComplement(items, k) <==> k == c;
    assert forall j | 0 <= j < |items| :: Asks(d, j, i) <==> Lists(items[j], i);
  }

  // ---------------------------------------------------------------------------
  // The checks of run_mix
  // ---------------------------------------------------------------------------

  datatype MixRequest = MixRequest(
    inputs: seq<OutPoint>, scripts: seq<seq<byte>>, data: MixData, lock: set<OutPoint>)

  ghost predicate MixAllowed(t: Tables, ops: seq<OutPoint>, items: seq<MixItem>, walletUtxos: seq<OutPoint>) {
    && ops != [] && DistinctOutPoints(ops)
    && WellFormedRequest(items)
    && AllHoldTokens(t, ops) && |TokensOf(t, ops)| <= U128_MAX
    && ValidateTokenCount(RequestedMix(items), |TokensOf(t, ops)|).Ok?
    && AllIn(ops, walletUtxos)
  }

  /** The request names at least one wallet outpoint, each once, and each holds tokens. */
  ghost predicate TokensChosen(t: Tables, ops: seq<OutPoint>, walletUtxos: seq<OutPoint>) {
    && ops != []
    && (forall i, j | 0 <= i < j < |ops| :: ops[i] != ops[j])
    && (forall i | 0 <= i < |ops| :: ops[i] in walletUtxos && exists x :: HeldAt(t, ops[i], x))
  }

  /** Every output has an address; one takes the rest and every other lists ranges. */
  ghost predicate OneTakesTheRest(items: seq<MixItem>) {
    && (forall k | 0 <= k < |items| :: items[k].address.Some? && !items[k].selection.Malformed?)
    && (exists c: nat | c < |items| ::
          && items[c].selection.Complement?
          && forall k | 0 <= k < |items| && k != c :: items[k].selection.Listed? && items[k].selection.ranges != [])
  }

  /** Range `a` of item `k` lists index `i`. */
  predicate ListsAt(items: seq<MixItem>, k: nat, a: nat, i: int) {
    && k < |items| && items[k].selection.Listed? && a < |items[k].selection.ranges|
    && items[k].selection.ranges[a].start <= i < items[k].selection.ranges[a].end
  }

  /** No range is empty or reaches past 96 bits. */
  ghost predicate BoundsAgree(items: seq<MixItem>) {
    forall k, a | 0 <= k < |items| && items[k].selection.Listed? && 0 <= a < |items[k].selection.ranges| ::
      items[k].selection.ranges[a].start < items[k].selection.ranges[a].end < 0x1_0000_0000_0000_0000_0000_0000
  }

  /** No index is listed twice. */
  ghost predicate AskedOnce(items: seq<MixItem>) {
    forall k: nat, a: nat, l: nat, b: nat, i: int ::
      ListsAt(items, k, a, i) && ListsAt(items, l, b, i) ==> k == l && a == b
  }

  /** No index is past the `count` tokens there are. */
  ghost predicate AskedWithin(items: seq<MixItem>, count: nat) {
    forall k: nat, a: nat, i: nat :: ListsAt(items, k, a, i) ==> i < count
  }

  lemma ChosenIff(t: Tables, ops: seq<OutPoint>, walletUtxos: seq<OutPoint>)
    requires Inv(t)
    ensures TokensChosen(t, ops, walletUtxos)
      <==> ops != [] && DistinctOutPoints(ops) && AllHoldTokens(t, ops) && AllIn(ops, walletUtxos)
  {
    hide Inv, UnspentUtxos, HeldAt;
    forall i | 0 <= i < |ops| ensures UnspentUtxos(t, ops[i]) != {} <==> exists x :: HeldAt(t, ops[i], x) {
      TokenUtxoTestsAgree(t, ops[i]);
      HoldsSomething(t, ops[i]);
    }
  }

  lemma RestIff(items: seq<MixItem>)
    requires forall k | 0 <= k < |items| :: ItemParses(items[k])
    ensures OneTakesTheRest(items)
      <==> && OneComplement(items)
           && forall k | 0 <= k < |items| :: RangesAsked(items[k]) == [] <==> k == FirstComplement(items)
  {
    if OneTakesTheRest(items) {
      var c: nat :| c < |items| && items[c].selection.Complement? && forall k | 0 <= k < |items| && k != c ::
          items[k].selection.Listed? && items[k].selection.ranges != [];
      FirstComplementIs(items, c);
      assert IsComplement(items, c) && forall k | IsComplement(items, k) :: k == c;
    }
    if OneComplement(items) {
      var c: nat :| IsComplement(items, c) && forall k | IsComplement(items, k) :: k == c;
      FirstComplementIs(items, c);
      assert forall k: nat :: IsComplement(items, k) <==> k == c;
    }
  }

  lemma AsksIsListed(items: seq<MixItem>, k: nat, i: nat)
    ensures Asks(RequestedMix(items), k, i) <==> exists a: nat :: ListsAt(items, k, a, i)
  {
    var d := RequestedMix(items);
    if Asks(d, k, i) {
      var r :| r in d.outputRanges[k] && Contains(r, 0, i);
      var a :| 0 <= a < |d.outputRanges[k]| && d.outputRanges[k][a] == r;
      assert ListsAt(items, k, a, i);
    }
    if a: nat :| ListsAt(items, k, a, i) {
      assert d.outputRanges[k][a] in d.outputRanges[k];
    }
  }

  lemma ListedIsOnce(items: seq<MixItem>)
    ensures ListedOnce(RequestedMix(items)) <==> AskedOnce(items)
  {
    var d := RequestedMix(items);
    assert forall k: nat, a: nat, i: int :: MixPayload.ListsAt(d, k, a, i) <==> ListsAt(items, k, a, i);
    hide RequestedMix, ListedOnce, ListsAt, MixPayload.ListsAt;
    if ListedOnce(d) {
      forall k: nat, a: nat, l: nat, b: nat, i: int | ListsAt(items, k, a, i) && ListsAt(items, l, b, i)
        ensures k == l && a == b
      {
        OnceAt(d, k, a, l, b, i);
      }
    } else {
      var k, a, l, b, i := TwiceAt(d);
      assert ListsAt(items, k, a, i) && ListsAt(items, l, b, i);
    }
  }

  lemma OnceAt(d: MixData, k: nat, a: nat, l: nat, b: nat, i: int)
    requires ListedOnce(d) && MixPayload.ListsAt(d, k, a, i) && MixPayload.ListsAt(d, l, b, i)
    ensures k == l && a == b
  {
  }

  lemma TwiceAt(d: MixData) returns (k: nat, a: nat, l: nat, b: nat, i: int)
    requires !ListedOnce(d)
    ensures MixPayload.ListsAt(d, k, a, i) && MixPayload.ListsAt(d, l, b, i) && !(k == l && a == b)
  {
    k, a, l, b, i :| MixPayload.ListsAt(d, k, a, i) && MixPayload.ListsAt(d, l, b, i) && !(k == l && a == b);
  }

  lemma BoundsAre(items: seq<MixItem>)
    requires forall k | 0 <= k < |items| :: ItemParses(items[k])
    ensures var d := RequestedMix(items);
            (forall k, a | 0 <= k < |d.outputRanges| && 0 <= a < |d.outputRanges[k]| ::
               d.outputRanges[k][a].start < d.outputRanges[k][a].end < 0x1_0000_0000_0000_0000_0000_0000)
            <==> BoundsAgree(items)
  {
    var d := RequestedMix(items);
    forall k | 0 <= k < |items| ensures d.outputRanges[k] == RangesAsked(items[k]) {
    }
  }

  lemma WithinIff(items: seq<MixItem>, count: nat)
    requires ValidBasic(RequestedMix(items))
    ensures ValidateTokenCount(RequestedMix(items), count).Ok? <==> AskedWithin(items, count)
  {
    var d := RequestedMix(items);
    TokenCountMeaning(d, count);
    ComplementListsNothing(items);
    hide ValidBasic, ValidateTokenCount, RequestedMix, Asks, ListsAt;
    if ValidateTokenCount(d, count).Ok? {
      forall k: nat, a: nat, i: nat | ListsAt(items, k, a, i) ensures i < count {
        AsksIsListed(items, k, i);
        assert k != d.complementIndex;
      }
    }
    if AskedWithin(items, count) {
      forall k: nat, i: nat | Asks(d, k, i) ensures i < count {
        AsksIsListed(items, k, i);
      }
    }
  }

  lemma ComplementListsNothing(items: seq<MixItem>)
    requires ValidBasic(RequestedMix(items))
    ensures forall a: nat, i: nat :: !ListsAt(items, RequestedMix(items).complementIndex, a, i)
  {
    var c := RequestedMix(items).complementIndex;
    assert RequestedMix(items).outputRanges[c] == [];
  }

  lemma RequestedIs(items: seq<MixItem>)
    ensures |RequestedMix(items).outputRanges| == |items|
    ensures RequestedMix(items).complementIndex == FirstComplement(items)
    ensures forall k | 0 <= k < |items| :: RequestedMix(items).outputRanges[k] == RangesAsked(items[k])
  {
  }

  lemma ComplementExists(items: seq<MixItem>)
    requires OneComplement(items)
    ensures FirstComplement(items) < |items|
  {
    var c: nat :| IsComplement(items, c) && forall k | IsComplement(items, k) :: k == c;
    FirstComplementIs(items, c);
  }

  lemma ValidIff(items: seq<MixItem>)
    requires forall k | 0 <= k < |items| :: ItemParses(items[k])
    ensures OneComplement(items) && ValidBasic(RequestedMix(items))
      <==> OneTakesTheRest(items) && BoundsAgree(items) && AskedOnce(items)
  {
    hide *;
    RestIff(items);
    ValidBasicIff(RequestedMix(items));
    ListedIsOnce(items);
    BoundsAre(items);
    RequestedIs(items);
    if OneComplement(items) {
      ComplementExists(items);
    }
  }

  lemma WellFormedIff(items: seq<MixItem>, count: nat)
    ensures WellFormedRequest(items) && ValidateTokenCount(RequestedMix(items), count).Ok?
      <==> OneTakesTheRest(items) && BoundsAgree(items) && AskedOnce(items) && AskedWithin(items, count)
  {
    hide ValidBasic, ValidateTokenCount, RequestedMix, BoundsAgree, AskedOnce, AskedWithin, OneComplement;
    if forall k | 0 <= k < |items| :: ItemParses(items[k]) {
      ValidIff(items);
      if ValidBasic(RequestedMix(items)) {
        WithinIff(items, count);
      }
    }
  }

  /** What a mix request must satisfy, in the user's terms: nothing else is refused. */
  lemma MixAllowedIff(t: Tables, ops: seq<OutPoint>, items: seq<MixItem>, walletUtxos: seq<OutPoint>)
    requires Inv(t)
    ensures MixAllowed(t, ops, items, walletUtxos)
      <==> && TokensChosen(t, ops, walletUtxos) && OneTakesTheRest(items)
           && BoundsAgree(items) && AskedOnce(items) && AskedWithin(items, |TokensOf(t, ops)|)
           && |TokensOf(t, ops)| < 0x1_0000_0000_0000_0000_0000_0000_0000_0000
  {
    hide *;
    ChosenIff(t, ops, walletUtxos);
    WellFormedIff(items, |TokensOf(t, ops)|);
    AllowedIs(t, ops, items, walletUtxos);
  }

  lemma AllowedIs(t: Tables, ops: seq<OutPoint>, items: seq<MixItem>, walletUtxos: seq<OutPoint>)
    ensures MixAllowed(t, ops, items, walletUtxos)
      <==> && ops != [] && DistinctOutPoints(ops) && AllHoldTokens(t, ops) && AllIn(ops, walletUtxos)
           && WellFormedRequest(items) && ValidateTokenCount(RequestedMix(items), |TokensOf(t, ops)|).Ok?
           && |TokensOf(t, ops)| < 0x1_0000_0000_0000_0000_0000_0000_0000_0000
  {
  }

  ghost function RequestOf(t: Tables, ops: seq<OutPoint>, items: seq<MixItem>, walletUtxos: seq<OutPoint>): MixRequest
    requires MixAllowed(t, ops, items, walletUtxos)
  {
    MixRequest(ops, ScriptsOf(items), RequestedMix(items), LockSet(t, walletUtxos, ops))
  }

  method AllDistinct(ops: seq<OutPoint>) returns (distinct: bool)
    ensures distinct <==> DistinctOutPoints(ops)
  {
    var seen: set<OutPoint> := {};
    for i := 0 to |ops|
      invariant forall op :: op in seen <==> op in ops[..i]
      invariant forall a, b | 0 <= a < b < i :: ops[a] != ops[b]
    {
      if ops[i] in seen {
        var a :| 0 <= a < i && ops[..i][a] == ops[i];
        assert ops[a] == ops[i];
        return false;
      }
      assert forall a | 0 <= a < i :: ops[..i][a] == ops[a];
      assert ops[..i + 1] == ops[..i] + [ops[i]];
      seen := seen + {ops[i]};
    }
    return true;
  }

  method PrepareMix(
    t: Tables, ops: seq<OutPoint>, args: seq<string>, addressOf: string -> Option<seq<byte>>,
    walletUtxos: seq<OutPoint>)
    returns (r: Result<MixRequest, WalletError>)
    requires RangesSound(t)
    ensures r.Ok? <==> MixAllowed(t, ops, ItemsOf(args, addressOf), walletUtxos)
    ensures r.Ok? ==> r.value == RequestOf(t, ops, ItemsOf(args, addressOf), walletUtxos)
  {
    if |ops| == 0 {
      return Err(WalletError);
    }
    var distinct := AllDistinct(ops);
    if !distinct {
      return Err(WalletError);
    }
    var parsed := ParseMixOutputs(args, addressOf);
    if parsed.Err? {
      return Err(WalletError);
    }
    var (scripts, data) := parsed.value;
    var total := CountTokens(t, ops);
    if total.Err? {
      return Err(WalletError);
    }
    var valid := ValidateTokenCount(data, total.value);
    if valid.Err? {
      return Err(WalletError);
    }
    for i := 0 to |ops|
      invariant AllIn(ops[..i], walletUtxos)
    {
      if ops[i] !in walletUtxos {
        assert !AllIn(ops, walletUtxos);
        return Err(WalletError);
      }
      assert AllIn(ops[..i + 1], walletUtxos);
    }
    assert ops[..|ops|] == ops;
    var lock := TokenOutpointsToLock(t, walletUtxos, ops);
    return Ok(MixRequest(ops, scripts, data, lock));
  }

  // ---------------------------------------------------------------------------
  // The transaction
  // ---------------------------------------------------------------------------

  /** `OP_RETURN`, the marker opcode and the encoded message; `bytes` is the script itself. */
  function MessageScript(d: MixData, bytes: seq<byte>): Script {
    OpReturn(bytes, Some(Payload.EncodePayload(Payload.Mix(d))))
  }

  /**
    What `walletcreatefundedpsbt` is relied on for: the requested outputs in order with change last, the
    requested inputs among the inputs, and nothing added but unlocked outputs of the wallet.
    */
  ghost predicate Funded<I, O>(psbt: Psbt<I, O>, req: MixRequest, walletUtxos: seq<OutPoint>) {
    && |psbt.inputMeta| == |psbt.inputs| && |psbt.outputMeta| == |psbt.outputs|
    && DistinctOutPoints(psbt.inputs) && AllIn(req.inputs, psbt.inputs)
    && (forall op | op in psbt.inputs :: op in req.inputs || (op in walletUtxos && op !in req.lock))
    && |psbt.outputs| >= 1 + |req.scripts| && psbt.outputs[0].script.OpReturn?
    && (forall k | 0 <= k < |req.scripts| :: psbt.outputs[k + 1].script == Spendable(req.scripts[k]))
  }

  /** No dummy output can stand in for a longer script while fees are estimated. */
  const MAX_NULL_DATA_SCRIPT_LEN := 83

  predicate CanBuild<I, O>(tokenInputs: seq<OutPoint>, message: Script, funded: Psbt<I, O>) {
    && tokenInputs != [] && |message.bytes| <= MAX_NULL_DATA_SCRIPT_LEN
    && |tokenInputs| <= |funded.inputs| && |funded.inputMeta| == |funded.inputs|
    && AllIn(tokenInputs, funded.inputs)
  }

  /** The PSBT that is signed: message first among the outputs, token inputs first among the inputs. */
  function Built<I, O>(tokenInputs: seq<OutPoint>, message: Script, funded: Psbt<I, O>): Psbt<I, O>
    requires AllIn(tokenInputs, funded.inputs) && |funded.inputMeta| == |funded.inputs|
    requires |funded.outputMeta| == |funded.outputs|
  {
    OpReturnFirst(WithOpReturn(funded, message)).(
      inputs := Reordered(funded.inputs, funded.inputs, tokenInputs),
      inputMeta := Reordered(funded.inputMeta, funded.inputs, tokenInputs))
  }

  method CreatePsbtForMix<I, O>(tokenInputs: seq<OutPoint>, message: Script, funded: Psbt<I, O>)
    returns (r: Result<Psbt<I, O>, WalletError>)
    requires message.OpReturn? && |funded.outputMeta| == |funded.outputs|
    ensures r.Ok? <==>
      && tokenInputs != [] && |message.bytes| <= 83
      && |tokenInputs| <= |funded.inputs| && |funded.inputMeta| == |funded.inputs|
      && forall k | 0 <= k < |tokenInputs| :: tokenInputs[k] in funded.inputs
    ensures r.Ok? ==> r.value == Built(tokenInputs, message, funded)
  {
    if |tokenInputs| == 0 {
      return Err(WalletError);
    }
    if |message.bytes| > MAX_NULL_DATA_SCRIPT_LEN {
      return Err(WalletError);
    }
    var psbt := SubstituteFirstOpReturnScript(funded, message);
    psbt := MoveOpReturnFirst(psbt);
    r := ReorderPsbtInputs(psbt, tokenInputs);
  }

  function ScriptList(outputs: seq<TxOut>): seq<Script> {
    seq(|outputs|, i requires 0 <= i < |outputs| => outputs[i].script)
  }

  /** The transaction of a PSBT, once signed. */
  function TxOf<I, O>(psbt: Psbt<I, O>, txid: Txid): Tx {
    Tx(txid, psbt.inputs, ScriptList(psbt.outputs))
  }

  /** The transaction that is signed and broadcast: that of the PSBT `CreatePsbtForMix` returns. */
  function MixTx<I, O>(funded: Psbt<I, O>, req: MixRequest, bytes: seq<byte>, txid: Txid): Tx
    requires AllIn(req.inputs, funded.inputs) && |funded.inputMeta| == |funded.inputs|
    requires |funded.outputMeta| == |funded.outputs|
  {
    TxOf(Built(req.inputs, MessageScript(req.data, bytes), funded), txid)
  }

  // ---------------------------------------------------------------------------
  // Wallet and indexer agree
  // ---------------------------------------------------------------------------

  lemma MixTxInputs<I, O>(
    t: Tables, ops: seq<OutPoint>, walletUtxos: seq<OutPoint>, funded: Psbt<I, O>, req: MixRequest)
    returns (rest: seq<OutPoint>)
    requires Inv(t) && Funded(funded, req, walletUtxos)
    requires req.inputs == ops && req.lock == LockSet(t, walletUtxos, ops)
    ensures Reordered(funded.inputs, funded.inputs, ops) == ops + rest
    ensures forall op | op in rest :: !HoldsTokens(t, op)
  {
    var ins := Reordered(funded.inputs, funded.inputs, ops);
    rest := ins[|ops|..];
    DesiredFirst(funded.inputs, ops);
    assert ins == ins[..|ops|] + rest;
    forall op | op in rest ensures !HoldsTokens(t, op) {
      OthersLast(funded.inputs, ops, op);
      UnlockedIsPlain(t, walletUtxos, ops, op);
    }
  }

  /** The outputs of the built PSBT: the message in place of the funded dummy, then all others as funded. */
  lemma BuiltOutputs<I, O>(tokenInputs: seq<OutPoint>, message: Script, funded: Psbt<I, O>)
    requires AllIn(tokenInputs, funded.inputs) && |funded.inputMeta| == |funded.inputs|
    requires |funded.outputMeta| == |funded.outputs| && message.OpReturn?
    requires |funded.outputs| > 0 && funded.outputs[0].script.OpReturn?
    ensures Built(tokenInputs, message, funded).outputs
         == [TxOut(message, funded.outputs[0].amount)] + funded.outputs[1..]
  {
    hide FirstOpReturn, OpReturnFirst, WithOpReturn, Reordered, AllIn;
    FirstOpReturnIs(funded.outputs, 0);
    MessageFirst(funded, message);
    var first := [TxOut(message, funded.outputs[0].amount)];
    assert first + funded.outputs[..0] + funded.outputs[1..] == first + funded.outputs[1..];
  }

  lemma ScriptListAt(first: TxOut, others: seq<TxOut>, k: nat)
    requires k < |others|
    ensures |ScriptList([first] + others)| == |others| + 1
    ensures ScriptList([first] + others)[k + 1] == others[k].script
  {
  }

  lemma FundedFacts<I, O>(walletUtxos: seq<OutPoint>, funded: Psbt<I, O>, req: MixRequest)
    requires Funded(funded, req, walletUtxos)
    ensures AllIn(req.inputs, funded.inputs) && |funded.inputMeta| == |funded.inputs|
    ensures |funded.outputMeta| == |funded.outputs| && |funded.outputs| > |req.scripts|
    ensures funded.outputs[0].script.OpReturn?
    ensures forall k | 0 <= k < |req.scripts| :: funded.outputs[1..][k].script == Spendable(req.scripts[k])
  {
  }

  lemma MixTxIs<I, O>(funded: Psbt<I, O>, req: MixRequest, bytes: seq<byte>, txid: Txid)
    requires AllIn(req.inputs, funded.inputs) && |funded.inputMeta| == |funded.inputs|
    requires |funded.outputMeta| == |funded.outputs|
    ensures MessageScript(req.data, bytes).OpReturn?
    ensures MixTx(funded, req, bytes, txid).outputs
         == ScriptList(Built(req.inputs, MessageScript(req.data, bytes), funded).outputs)
  {
  }

  lemma ScriptListHead(first: TxOut, others: seq<TxOut>)
    ensures |ScriptList([first] + others)| == |others| + 1
    ensures ScriptList([first] + others)[0] == first.script
  {
  }

  lemma MixTxOutputs<I, O>(
    walletUtxos: seq<OutPoint>, funded: Psbt<I, O>, req: MixRequest, bytes: seq<byte>, txid: Txid)
    requires Funded(funded, req, walletUtxos)
    ensures var tx := MixTx(funded, req, bytes, txid);
            && |tx.outputs| > |req.scripts| && tx.outputs[0] == MessageScript(req.data, bytes)
            && forall k | 0 <= k < |req.scripts| :: tx.outputs[k + 1] == Spendable(req.scripts[k])
  {
    hide *;
    FundedFacts(walletUtxos, funded, req);
    var message := MessageScript(req.data, bytes);
    MixTxIs(funded, req, bytes, txid);
    BuiltOutputs(req.inputs, message, funded);
    var first, others := TxOut(message, funded.outputs[0].amount), funded.outputs[1..];
    ScriptListHead(first, others);
    forall k | 0 <= k < |req.scripts|
      ensures MixTx(funded, req, bytes, txid).outputs[k + 1] == Spendable(req.scripts[k])
    {
      ScriptListAt(first, others, k);
    }
  }

  /** The indexer reads the message back. */
  lemma MixTxPayload(tx: Tx, d: MixData, bytes: seq<byte>)
    requires ValidBasic(d) && FitsMemory(d)
    requires tx.outputs != [] && tx.outputs[0] == MessageScript(d, bytes)
    ensures TxPayload(tx) == Some(Payload.Mix(d))
  {
    Payload.DecodeOfEncode(Payload.Mix(d));
  }

  lemma MixTxTokens(t: Tables, ops: seq<OutPoint>, rest: seq<OutPoint>)
    requires Inv(t) && AllHoldTokens(t, ops) && NULL_OUTPOINT !in ops
    requires forall op | op in rest :: !HoldsTokens(t, op)
    ensures var inputs := TokenInputs(t, ops + rest);
            && |inputs| == |ops| && TokensFirst(t, ops + rest)
            && Flatten(AllRanges(inputs)) == TokensOf(t, ops)
            && WfSlices(AllRanges(inputs))
  {
    PlainInputsAddNothing(t, ops, rest);
    ParserSeesTokens(t, ops);
    ChosenFirst(t, ops, rest);
    Ledger.InputsStorable(t, ops + rest);
    var rs := AllRanges(TokenInputs(t, ops + rest));
    forall i | 0 <= i < |rs| ensures WfSlice(rs[i]) {
      assert rs[i] in rs;
    }
  }

  ghost predicate Requested(t: Tables, ops: seq<OutPoint>, items: seq<MixItem>, walletUtxos: seq<OutPoint>) {
    && Inv(t) && MixAllowed(t, ops, items, walletUtxos)
    && NULL_OUTPOINT !in walletUtxos && FitsMemory(RequestedMix(items))
  }

  lemma RequestFacts(t: Tables, ops: seq<OutPoint>, items: seq<MixItem>, walletUtxos: seq<OutPoint>)
    requires Requested(t, ops, items, walletUtxos)
    ensures MixAllowed(t, ops, items, walletUtxos)
    ensures var req := RequestOf(t, ops, items, walletUtxos);
            && Inv(t) && ops != [] && AllHoldTokens(t, ops) && NULL_OUTPOINT !in ops && DistinctOutPoints(ops)
            && req.inputs == ops && req.data == RequestedMix(items) && req.lock == LockSet(t, walletUtxos, ops)
            && |req.scripts| == |items| == |req.data.outputRanges|
            && (forall k | 0 <= k < |items| :: ItemParses(items[k]) && req.scripts[k] == ScriptOf(items[k]))
            && ValidBasic(req.data) && FitsMemory(req.data)
            && |TokensOf(t, ops)| <= U128_MAX && ValidateTokenCount(req.data, |TokensOf(t, ops)|).Ok?
  {
    hide Inv, ValidBasic, FitsMemory, TokensOf, ValidateTokenCount;
  }

  lemma MixTxFields<I, O>(
    walletUtxos: seq<OutPoint>, funded: Psbt<I, O>, req: MixRequest, bytes: seq<byte>, txid: Txid)
    requires Funded(funded, req, walletUtxos)
    ensures AllIn(req.inputs, funded.inputs) && |funded.inputMeta| == |funded.inputs|
    ensures |funded.outputMeta| == |funded.outputs|
    ensures DistinctOutPoints(funded.inputs)
    ensures MixTx(funded, req, bytes, txid).inputs == Reordered(funded.inputs, funded.inputs, req.inputs)
    ensures MixTx(funded, req, bytes, txid).txid == txid
  {
  }

  /** Funding keeps every input, so an accepted request with a standard message can always be built. */
  lemma RequestCanBeBuilt<I, O>(
    t: Tables, ops: seq<OutPoint>, items: seq<MixItem>, walletUtxos: seq<OutPoint>, funded: Psbt<I, O>,
    bytes: seq<byte>)
    requires Requested(t, ops, items, walletUtxos) && Funded(funded, RequestOf(t, ops, items, walletUtxos), walletUtxos)
    requires |bytes| <= 83
    ensures CanBuild(ops, MessageScript(RequestedMix(items), bytes), funded)
  {
    RequestFacts(t, ops, items, walletUtxos);
    FundedFacts(walletUtxos, funded, RequestOf(t, ops, items, walletUtxos));
    hide MixAllowed, Requested, Funded, RequestOf, RequestedMix, Inv;
    EnoughInputs(funded.inputs, ops);
  }

  lemma EnoughInputs(keys: seq<OutPoint>, ops: seq<OutPoint>)
    requires AllIn(ops, keys) && DistinctOutPoints(ops)
    ensures |ops| <= |keys|
  {
    ReorderPermutes(keys, keys, ops);
    var ins := Reordered(keys, keys, ops);
    assert |multiset(ins)| == |ins| && |multiset(keys)| == |keys|;
  }

  /** The transaction as the indexer finds it. */
  lemma MixTxShape<I, O>(
    t: Tables, ops: seq<OutPoint>, items: seq<MixItem>, walletUtxos: seq<OutPoint>, funded: Psbt<I, O>,
    bytes: seq<byte>, txid: Txid)
    requires Requested(t, ops, items, walletUtxos) && Funded(funded, RequestOf(t, ops, items, walletUtxos), walletUtxos)
    ensures var tx := MixTx(funded, RequestOf(t, ops, items, walletUtxos), bytes, txid);
            var inputs := TokenInputs(t, tx.inputs);
            && tx.txid == txid && TxPayload(tx) == Some(Payload.Mix(RequestedMix(items)))
            && tx.inputs != [] && |tx.outputs| >= |items| + 1
            && inputs != [] && TokensFirst(t, tx.inputs) && WfSlices(AllRanges(inputs))
            && Flatten(AllRanges(inputs)) == TokensOf(t, ops)
            && (forall k | 0 <= k < |items| :: tx.outputs[k + 1] == Spendable(ScriptOf(items[k])))
  {
    hide *;
    RequestFacts(t, ops, items, walletUtxos);
    var req := RequestOf(t, ops, items, walletUtxos);
    MixTxFields(walletUtxos, funded, req, bytes, txid);
    var tx := MixTx(funded, req, bytes, txid);
    var rest := MixTxInputs(t, ops, walletUtxos, funded, req);
    MixTxOutputs(walletUtxos, funded, req, bytes, txid);
    MixTxPayload(tx, req.data, bytes);
    MixTxTokens(t, ops, rest);
  }

  /** Against the same index state, every check of the indexer passes. */
  lemma WalletMixAccepted<I, O>(
    t: Tables, ops: seq<OutPoint>, items: seq<MixItem>, walletUtxos: seq<OutPoint>, funded: Psbt<I, O>,
    bytes: seq<byte>, txid: Txid, node: Node)
    requires Requested(t, ops, items, walletUtxos) && Funded(funded, RequestOf(t, ops, items, walletUtxos), walletUtxos)
    ensures var tx := MixTx(funded, RequestOf(t, ops, items, walletUtxos), bytes, txid);
            && TxPayload(tx) == Some(Payload.Mix(RequestedMix(items)))
            && !RejectedMix(t, tx) && PlanTx(t, node, tx).Ok?
  {
    hide *;
    RequestFacts(t, ops, items, walletUtxos);
    MixTxFields(walletUtxos, funded, RequestOf(t, ops, items, walletUtxos), bytes, txid);
    MixTxShape(t, ops, items, walletUtxos, funded, bytes, txid);
    var tx := MixTx(funded, RequestOf(t, ops, items, walletUtxos), bytes, txid);
    AllSpendable(tx, items);
    ChecksPass(t, tx, RequestedMix(items), node);
  }

  lemma ChecksPass(t: Tables, tx: Tx, d: MixData, node: Node)
    requires TxPayload(tx) == Some(Payload.Mix(d))
    requires tx.inputs != [] && |tx.outputs| >= |d.outputRanges| + 1
    requires TokenInputs(t, tx.inputs) != [] && TokensFirst(t, tx.inputs)
    requires WfSlices(AllRanges(TokenInputs(t, tx.inputs)))
    requires var count := |Flatten(AllRanges(TokenInputs(t, tx.inputs)))|;
             count <= U128_MAX && ValidateTokenCount(d, count).Ok?
    requires MixDigest.OutputsSpendable(d, tx)
    ensures !RejectedMix(t, tx) && PlanTx(t, node, tx).Ok?
  {
    hide TxPayload, ValidateTokenCount, TokenInputs, AllRanges, Flatten, WfSlices, TokensFirst, SpendableOutputs,
      MixDigest.OutputsSpendable, Transfers, MixDigest.MixWrites, RegisterDigest.RegisterOutcome;
  }

  lemma AllSpendable(tx: Tx, items: seq<MixItem>)
    requires |tx.outputs| >= |items| + 1
    requires forall k | 0 <= k < |items| :: ItemParses(items[k]) && tx.outputs[k + 1] == Spendable(ScriptOf(items[k]))
    ensures MixDigest.OutputsSpendable(RequestedMix(items), tx)
  {
    forall vout | 1 <= vout <= |items| ensures MixDigest.SpendableAt(tx, vout) {
      assert ItemParses(items[vout - 1]);
    }
  }

  lemma PlanSteps(t: Tables, node: Node, tx: Tx, at: Position)
    requires PlanTx(t, node, tx).Ok?
    ensures StepTx(t, node, tx, at).Ok?
  {
  }

  lemma ShareOf(t: Tables, tx: Tx, d: MixData, k: nat)
    requires k < |d.outputRanges|
    ensures Share(t, tx.inputs, d, k + 1) == Routed(Flatten(AllRanges(TokenInputs(t, tx.inputs))), d, k)
  {
  }

  lemma ChosenDisjoint(t: Tables, ops: seq<OutPoint>, ins: seq<OutPoint>)
    requires forall x :: Count(TokensOf(t, ops), x) <= 1
    requires Flatten(AllRanges(TokenInputs(t, ins))) == TokensOf(t, ops)
    ensures DisjointInputs(t, ins)
  {
  }

  /**
    Address `k` receives exactly the tokens at the indices it asked for, in order, counted over the
    chosen outpoints in the order given. Only the chosen outpoints must not share tokens; who else
    holds what does not matter.
    */
  lemma WalletMixDelivers<I, O>(
    t: Tables, ops: seq<OutPoint>, items: seq<MixItem>, walletUtxos: seq<OutPoint>, funded: Psbt<I, O>,
    bytes: seq<byte>, txid: Txid, node: Node, at: Position, k: nat)
    requires Requested(t, ops, items, walletUtxos) && Funded(funded, RequestOf(t, ops, items, walletUtxos), walletUtxos)
    requires Ledger.FreshTxid(t, txid) && k < |items| && forall x :: Count(TokensOf(t, ops), x) <= 1
    ensures var tx := MixTx(funded, RequestOf(t, ops, items, walletUtxos), bytes, txid);
            && tx.outputs[k + 1] == Spendable(ScriptOf(items[k]))
            && StepTx(t, node, tx, at).Ok?
            && TokensAt(StepTx(t, node, tx, at).value, OutPoint(txid, k + 1))
               == Routed(TokensOf(t, ops), RequestedMix(items), k)
  {
    hide *;
    RequestFacts(t, ops, items, walletUtxos);
    var req := RequestOf(t, ops, items, walletUtxos);
    MixTxFields(walletUtxos, funded, req, bytes, txid);
    var tx := MixTx(funded, req, bytes, txid);
    WalletMixAccepted(t, ops, items, walletUtxos, funded, bytes, txid, node);
    MixTxShape(t, ops, items, walletUtxos, funded, bytes, txid);
    ChosenDisjoint(t, ops, tx.inputs);
    PlanSteps(t, node, tx, at);
    MixDelivers(t, node, tx, at, req.data, k + 1);
    ShareOf(t, tx, req.data, k);
  }

  /** Which tokens address `k` receives, even when chosen outpoints share tokens. */
  lemma WalletMixReaches<I, O>(
    t: Tables, ops: seq<OutPoint>, items: seq<MixItem>, walletUtxos: seq<OutPoint>, funded: Psbt<I, O>,
    bytes: seq<byte>, txid: Txid, node: Node, at: Position, k: nat, x: Token)
    requires Requested(t, ops, items, walletUtxos) && Funded(funded, RequestOf(t, ops, items, walletUtxos), walletUtxos)
    requires Ledger.FreshTxid(t, txid) && k < |items|
    ensures var tx := MixTx(funded, RequestOf(t, ops, items, walletUtxos), bytes, txid);
            && StepTx(t, node, tx, at).Ok?
            && (HeldAt(StepTx(t, node, tx, at).value, OutPoint(txid, k + 1), x)
                <==> x in Routed(TokensOf(t, ops), RequestedMix(items), k))
  {
    hide *;
    RequestFacts(t, ops, items, walletUtxos);
    var req := RequestOf(t, ops, items, walletUtxos);
    MixTxFields(walletUtxos, funded, req, bytes, txid);
    var tx := MixTx(funded, req, bytes, txid);
    WalletMixAccepted(t, ops, items, walletUtxos, funded, bytes, txid, node);
    MixTxShape(t, ops, items, walletUtxos, funded, bytes, txid);
    PlanSteps(t, node, tx, at);
    MixReaches(t, node, tx, at, req.data, k + 1, x);
    ShareOf(t, tx, req.data, k);
  }
}
