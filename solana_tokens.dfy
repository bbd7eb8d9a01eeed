/**
 * The cleaning step of `fetchSolanaTokens`: parsed token accounts become holdings.
 * No metadata is looked up, so the only gate is a positive amount; the symbol is the
 * first four characters of the mint followed by `...`, and there is never a logo.
 */
module SolanaTokens {
  import opened Wrappers
  import opened Text
  import opened Holdings
  import opened Filtering

  /** `account.data.parsed.info`: the mint and the amount its `tokenAmount.uiAmountString` denotes. */
  datatype TokenAccount = TokenAccount(mint: string, uiAmount: Amount)

  const MintPrefixLength: nat := 4
  const Ellipsis: string := "..."

  /** `mint.slice(0, 4) + '...'` */
  function ShortSymbol(mint: string): (symbol: string)
    ensures 3 <= |symbol| <= 7
    ensures symbol[|symbol| - 3..] == Ellipsis
    ensures symbol[..|symbol| - 3] <= mint
    ensures |mint| >= MintPrefixLength ==> |symbol| == 7
    ensures |mint| < MintPrefixLength ==> symbol[..|symbol| - 3] == mint
  {
    var prefix := Take(mint, MintPrefixLength);
    assert (prefix + Ellipsis)[..|prefix|] == prefix;
    prefix + Ellipsis
  }

  /** What every displayed Solana holding satisfies. */
  ghost predicate SolanaDisplayable(h: Holding) {
    && h.balance.Positive()
    && h.logo.None?
    && 3 <= |h.symbol| <= 7
    && h.symbol[|h.symbol| - 3..] == Ellipsis
  }

  /** The body of the formatting `map`: a holding, or `None` where the source returns `null`. */
  function FormatAccount(account: TokenAccount): (h: Option<Holding>)
    ensures h.Some? <==> account.uiAmount.Positive()
    ensures h.Some? ==> SolanaDisplayable(h.value)
  {
    if !account.uiAmount.Positive() then None
    else Some(Holding(ShortSymbol(account.mint), account.uiAmount, None))
  }

  function FormattedEntries(accounts: seq<TokenAccount>): seq<Option<Holding>> {
    seq(|accounts|, i requires 0 <= i < |accounts| => FormatAccount(accounts[i]))
  }

  /** `value.map(...).filter(Boolean)`: the holdings shown for a Solana address. */
  function FormatAccounts(accounts: seq<TokenAccount>): (formatted: seq<Holding>)
    ensures |formatted| <= |accounts|
    ensures forall h :: h in formatted ==> SolanaDisplayable(h)
  {
    var entries := FormattedEntries(accounts);
    assert forall h :: Some(h) in entries ==> SolanaDisplayable(h);
    Compact(entries)
  }

  /** The positions of the accounts that survive, in the order of their holdings. */
  function SurvivorIndices(accounts: seq<TokenAccount>): seq<nat> {
    KeptIndices(FormattedEntries(accounts))
  }

  /**
   * The output is an order-preserving selection of the accounts: the k-th holding is
   * the account at position `SurvivorIndices[k]`, with the short form of its mint as
   * symbol, its amount as balance and no logo.
   */
  lemma FormatAccountsProvenance(accounts: seq<TokenAccount>)
    ensures var formatted, idx := FormatAccounts(accounts), SurvivorIndices(accounts);
      && |idx| == |formatted|
      && (forall k, l :: 0 <= k < l < |idx| ==> idx[k] < idx[l])
      && forall k :: 0 <= k < |idx| ==>
        idx[k] < |accounts|
        && formatted[k] == Holding(ShortSymbol(accounts[idx[k]].mint), accounts[idx[k]].uiAmount, None)
  {
    var entries := FormattedEntries(accounts);
    var idx := KeptIndices(entries);
    forall k, l | 0 <= k < l < |idx| ensures idx[k] < idx[l] {
      KeptIndicesIncreasing(entries, k, l);
    }
    forall k | 0 <= k < |idx|
      ensures idx[k] < |accounts|
      ensures Compact(entries)[k] == Holding(ShortSymbol(accounts[idx[k]].mint), accounts[idx[k]].uiAmount, None)
    {
      KeptIndicesLocate(entries, k);
    }
  }

  /** Account `i` is shown exactly when its amount is positive. */
  lemma FormatAccountsKeeps(accounts: seq<TokenAccount>, i: nat)
    requires i < |accounts|
    ensures i in SurvivorIndices(accounts) <==> accounts[i].uiAmount.Positive()
  {
    KeptIndicesComplete(FormattedEntries(accounts), i);
  }
}
