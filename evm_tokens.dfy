/**
 * The cleaning step of `fetchEthereumTokens`: balance records from the indexing
 * service, matched by position with their token metadata, become displayable
 * holdings. A record is kept only when its metadata has a symbol and non-zero
 * decimals, the symbol is not spam-like and has 2 to 6 characters, and its raw
 * balance converts to a positive amount.
 */
module EvmTokens {
  import opened Wrappers
  import opened Text
  import opened Holdings
  import opened Filtering

  /** One entry of `getTokenBalances(address).tokenBalances`; `tokenBalance` is `None` when it does not parse as an integer. */
  datatype BalanceRecord = BalanceRecord(contractAddress: string, tokenBalance: Option<int>)

  /** `getTokenMetadata(contractAddress)`: every field may be missing. */
  datatype TokenMetadata = TokenMetadata(symbol: Option<string>, decimals: Option<int>, logo: Option<string>)

  /** What the two awaited service calls deliver: the balance list and, position by position, its metadata. */
  datatype EvmResponse = EvmResponse(balances: seq<BalanceRecord>, metadata: seq<Option<TokenMetadata>>)

  /** The alternatives of the spam pattern `/(http|www|claim|visit|verify|\$|#)/i`. */
  const SpamWords: seq<string> := ["http", "www", "claim", "visit", "verify", "$", "#"]

  const MinSymbolLength: nat := 2
  const MaxSymbolLength: nat := 6

  /** The largest decimal precision the unit-formatting library accepts (it refuses anything outside 0..256). */
  const MaxDecimals: nat := 256

  // ---------------------------------------------------------------------------
  // The spam test, as the regular-expression engine runs it: at each position in
  // turn, try each alternative in turn.

  predicate AlternativeAt(s: string, i: nat, words: seq<string>)
    requires i <= |s|
    decreases |words|
  {
    words != [] && (StartsWithIgnoringCase(s[i..], words[0]) || AlternativeAt(s, i, words[1..]))
  }

  predicate SearchFrom(s: string, i: nat)
    requires i <= |s|
    decreases |s| - i
  {
    AlternativeAt(s, i, SpamWords) || (i < |s| && SearchFrom(s, i + 1))
  }

  /** `/(http|www|claim|visit|verify|\$|#)/i.test(symbol)` */
  predicate IsSpam(symbol: string) {
    SearchFrom(symbol, 0)
  }

  /** The meaning of the pattern: some alternative occurs somewhere in `s`, ignoring case. */
  ghost predicate MentionsSpamWord(s: string) {
    exists w :: w in SpamWords && ContainsIgnoringCase(s, w)
  }

  lemma StartsWithAt(s: string, i: nat, w: string)
    requires i <= |s|
    ensures StartsWithIgnoringCase(s[i..], w) <==> OccursAt(s, i, w)
  {
  }

  lemma {:induction false} AlternativeAtMeans(s: string, i: nat, words: seq<string>)
    requires i <= |s|
    ensures AlternativeAt(s, i, words) <==> exists w :: w in words && OccursAt(s, i, w)
    decreases |words|
  {
    if words != [] {
      AlternativeAtMeans(s, i, words[1..]);
      StartsWithAt(s, i, words[0]);
      assert forall w :: w in words <==> w == words[0] || w in words[1..];
    }
  }

  lemma {:induction false} SearchFromMeans(s: string, i: nat)
    requires i <= |s|
    ensures SearchFrom(s, i) <==> exists j, w :: i <= j && w in SpamWords && OccursAt(s, j, w)
    decreases |s| - i
  {
    AlternativeAtMeans(s, i, SpamWords);
    if i < |s| {
      SearchFromMeans(s, i + 1);
      if exists j, w :: i <= j && w in SpamWords && OccursAt(s, j, w) {
        var j, w :| i <= j && w in SpamWords && OccursAt(s, j, w);
        if j > i {
          assert SearchFrom(s, i + 1);
        }
      }
    } else {
      assert forall w :: w in SpamWords ==> |w| > 0;
    }
  }

  /** The scan finds a match exactly when some alternative occurs in the symbol. */
  lemma IsSpamMeans(symbol: string)
    ensures IsSpam(symbol) <==> MentionsSpamWord(symbol)
  {
    SearchFromMeans(symbol, 0);
    if MentionsSpamWord(symbol) {
      var w :| w in SpamWords && ContainsIgnoringCase(symbol, w);
      var j :| OccursAt(symbol, j, w);
      assert 0 <= j;
    }
  }

  /** Case does not matter: `CLAIM`, `Claim` and `claim` are all spam. */
  lemma {:induction false} SpamIgnoresCase(s: string, t: string)
    requires |s| == |t|
    requires forall k :: 0 <= k < |s| ==> LowerAscii(s[k]) == LowerAscii(t[k])
    ensures IsSpam(s) <==> IsSpam(t)
  {
    IsSpamMeans(s);
    IsSpamMeans(t);
    forall j, w | OccursAt(s, j, w) ensures OccursAt(t, j, w) {
      assert forall k :: 0 <= k < |w| ==> LowerAscii(s[j + k]) == w[k];
    }
    forall j, w | OccursAt(t, j, w) ensures OccursAt(s, j, w) {
      assert forall k :: 0 <= k < |w| ==> LowerAscii(t[j + k]) == w[k];
    }
  }

  // ---------------------------------------------------------------------------
  // One record.

  /** JavaScript truthiness of an optional string: present and not empty. */
  predicate TruthyString(s: Option<string>) {
    s.Some? && s.value != ""
  }

  /** JavaScript truthiness of an optional number: present and not zero. */
  predicate TruthyNumber(n: Option<int>) {
    n.Some? && n.value != 0
  }

  /** `Utils.formatUnits(tokenBalance, decimals)`: `None` where the library throws. */
  function FormatUnits(raw: Option<int>, decimals: int): Option<Amount> {
    if raw.Some? && 0 <= decimals <= MaxDecimals then Some(Amount(raw.value, decimals)) else None
  }

  /** `metadata[i]`: `undefined` past the end. */
  function MetadataAt(metadata: seq<Option<TokenMetadata>>, i: nat): Option<TokenMetadata> {
    if i < |metadata| then metadata[i] else None
  }

  /** What every displayed Ethereum holding satisfies. */
  ghost predicate EvmDisplayable(h: Holding) {
    && MinSymbolLength <= |h.symbol| <= MaxSymbolLength
    && !MentionsSpamWord(h.symbol)
    && h.balance.Positive()
  }

  /** The filter rule, stated declaratively: every condition under which a record survives. */
  ghost predicate Acceptable(record: BalanceRecord, meta: Option<TokenMetadata>) {
    && meta.Some?
    && TruthyString(meta.value.symbol)
    && TruthyNumber(meta.value.decimals)
    && !MentionsSpamWord(meta.value.symbol.value)
    && MinSymbolLength <= |meta.value.symbol.value| <= MaxSymbolLength
    && record.tokenBalance.Some?
    && 0 <= meta.value.decimals.value <= MaxDecimals
    && record.tokenBalance.value > 0
  }

  /** `h` is built from `record` and `meta`: their symbol, their balance scaled by their decimals, their logo. */
  ghost predicate FromRecord(h: Holding, record: BalanceRecord, meta: Option<TokenMetadata>) {
    && meta.Some? && meta.value.symbol.Some? && meta.value.decimals.Some? && record.tokenBalance.Some?
    && 0 <= meta.value.decimals.value
    && h == Holding(meta.value.symbol.value, Amount(record.tokenBalance.value, meta.value.decimals.value), meta.value.logo)
  }

  /** The body of the cleaning `map`: a holding, or `None` where the source returns `null`. */
  function CleanRecord(record: BalanceRecord, meta: Option<TokenMetadata>): (h: Option<Holding>)
    ensures h.Some? ==> EvmDisplayable(h.value)
    ensures h.Some? ==> FromRecord(h.value, record, meta)
    ensures record.tokenBalance.None? ==> h.None?
  {
    if meta.None? || !TruthyString(meta.value.symbol) || !TruthyNumber(meta.value.decimals) then None
    else
      var symbol := meta.value.symbol.value;
      IsSpamMeans(symbol);
      if IsSpam(symbol) || !(MinSymbolLength <= |symbol| <= MaxSymbolLength) then None
      else
        match FormatUnits(record.tokenBalance, meta.value.decimals.value)
        case None => None
        case Some(balance) =>
          if !balance.Positive() then None
          else Some(Holding(symbol, balance, meta.value.logo))
  }

  /** A record survives exactly when it meets every condition of the filter. */
  lemma CleanRecordKeptIff(record: BalanceRecord, meta: Option<TokenMetadata>)
    ensures CleanRecord(record, meta).Some? <==> Acceptable(record, meta)
  {
    if meta.Some? && meta.value.symbol.Some? {
      IsSpamMeans(meta.value.symbol.value);
    }
  }

  // ---------------------------------------------------------------------------
  // The whole list.

  function CleanedEntries(balances: seq<BalanceRecord>, metadata: seq<Option<TokenMetadata>>): seq<Option<Holding>> {
    seq(|balances|, i requires 0 <= i < |balances| => CleanRecord(balances[i], MetadataAt(metadata, i)))
  }

  /** `data.tokenBalances.map(...).filter(Boolean)`: the holdings shown for an Ethereum address. */
  function CleanTokens(balances: seq<BalanceRecord>, metadata: seq<Option<TokenMetadata>>): (cleaned: seq<Holding>)
    ensures |cleaned| <= |balances|
    ensures forall h :: h in cleaned ==> EvmDisplayable(h)
  {
    var entries := CleanedEntries(balances, metadata);
    assert forall h :: Some(h) in entries ==> EvmDisplayable(h);
    Compact(entries)
  }

  /** The positions of the records that survive, in the order of their holdings. */
  function SurvivorIndices(balances: seq<BalanceRecord>, metadata: seq<Option<TokenMetadata>>): seq<nat> {
    KeptIndices(CleanedEntries(balances, metadata))
  }

  /**
   * The output is an order-preserving selection of the input: the k-th holding comes
   * from the record at position `SurvivorIndices[k]`, and takes its symbol, decimals
   * and logo from the metadata at that same position.
   */
  lemma CleanTokensProvenance(balances: seq<BalanceRecord>, metadata: seq<Option<TokenMetadata>>)
    ensures var cleaned, idx := CleanTokens(balances, metadata), SurvivorIndices(balances, metadata);
      && |idx| == |cleaned|
      && (forall k, l :: 0 <= k < l < |idx| ==> idx[k] < idx[l])
      && forall k :: 0 <= k < |idx| ==>
        idx[k] < |balances| && idx[k] < |metadata| && FromRecord(cleaned[k], balances[idx[k]], metadata[idx[k]])
  {
    var entries := CleanedEntries(balances, metadata);
    var cleaned, idx := Compact(entries), KeptIndices(entries);
    forall k, l | 0 <= k < l < |idx| ensures idx[k] < idx[l] {
      KeptIndicesIncreasing(entries, k, l);
    }
    forall k | 0 <= k < |idx|
      ensures idx[k] < |balances| && idx[k] < |metadata| && FromRecord(cleaned[k], balances[idx[k]], metadata[idx[k]])
    {
      KeptIndicesLocate(entries, k);
    }
  }

  /** Record `i` is shown exactly when it meets the filter rule. */
  lemma CleanTokensKeeps(balances: seq<BalanceRecord>, metadata: seq<Option<TokenMetadata>>, i: nat)
    requires i < |balances|
    ensures i in SurvivorIndices(balances, metadata) <==> Acceptable(balances[i], MetadataAt(metadata, i))
  {
    KeptIndicesComplete(CleanedEntries(balances, metadata), i);
    CleanRecordKeptIff(balances[i], MetadataAt(metadata, i));
  }

  /**
   * A dropped record (a malformed balance, say) does not disturb the others: the
   * output is what it would be had that record and its metadata never been there.
   */
  lemma DroppedRecordIsIsolated(balances: seq<BalanceRecord>, metadata: seq<Option<TokenMetadata>>, i: nat)
    requires i < |balances| == |metadata|
    requires CleanRecord(balances[i], metadata[i]).None?
    ensures CleanTokens(balances, metadata)
         == CleanTokens(balances[..i] + balances[i + 1..], metadata[..i] + metadata[i + 1..])
  {
    var entries := CleanedEntries(balances, metadata);
    var rest := CleanedEntries(balances[..i] + balances[i + 1..], metadata[..i] + metadata[i + 1..]);
    assert entries == entries[..i] + [None] + entries[i + 1..];
    assert rest == entries[..i] + entries[i + 1..];
    CompactSkipsNone(entries[..i], entries[i + 1..]);
  }
}
