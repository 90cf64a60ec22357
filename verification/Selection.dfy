/** Which of several offered challenges the Rust client signs. */
module Selection {
  import opened Common

  datatype Offered = Offered(method_: string, intent: string, request: string)

  /** What selection needs of a decoded challenge. */
  datatype Decoded = Decoded(currency: string, network: Option<string>)

  /** Decoding a request, and the mint a currency stands for on a network. */
  datatype Library = Library(decode: string -> Option<Decoded>, mint: (string, Option<string>) -> Option<string>)

  datatype Options = Options(network: Option<string>, preferences: seq<string>, currency: Option<string>)

  predicate IsCharge(c: Offered) {
    c.method_ == "solana" && c.intent == "charge"
  }

  predicate MatchesNetwork(d: Decoded, network: Option<string>) {
    network.Some? ==> (if d.network.Some? then d.network.value else "mainnet-beta") == network.value
  }

  /** The preferred currencies in order; a single currency is used when the list is empty. */
  function Preferences(options: Options): seq<string> {
    if options.preferences != [] then options.preferences
    else if options.currency.Some? then [options.currency.value]
    else []
  }

  predicate CurrenciesMatch(d: Decoded, expected: string, lib: Library) {
    lib.mint(d.currency, d.network) == lib.mint(expected, d.network)
  }

  // ── What is selected ──

  predicate IsSolanaCharge(c: Offered) {
    c == Offered("solana", "charge", c.request)
  }

  /** A charge whose request does not decode makes the selection fail. */
  predicate Undecodable(cs: seq<Offered>, k: int, lib: Library) {
    0 <= k < |cs| && IsSolanaCharge(cs[k]) && lib.decode(cs[k].request).None?
  }

  /** No network is wanted, or it is the challenge's; a challenge that names none is on mainnet. */
  predicate IsOn(d: Decoded, wanted: Option<string>) {
    wanted.None? || d.network == wanted || (d.network.None? && wanted == Some("mainnet-beta"))
  }

  /** A charge on the wanted network. */
  predicate Eligible(cs: seq<Offered>, k: int, options: Options, lib: Library) {
    && 0 <= k < |cs| && IsSolanaCharge(cs[k])
    && lib.decode(cs[k].request).Some?
    && IsOn(lib.decode(cs[k].request).value, options.network)
  }

  /** The currency is the preference number `p`; the single currency is the only one when the list is empty. */
  predicate Prefers(options: Options, p: int, currency: string) {
    || (0 <= p < |options.preferences| && options.preferences[p] == currency)
    || (options.preferences == [] && p == 0 && options.currency == Some(currency))
  }

  /** The challenge asks for the token that this currency stands for on the challenge's network. */
  predicate IsIn(d: Decoded, currency: string, lib: Library) {
    lib.mint(d.currency, d.network) == lib.mint(currency, d.network)
  }

  /** Challenge `k` is eligible and in the preferred currency `p`. */
  ghost predicate Fits(cs: seq<Offered>, p: int, k: int, options: Options, lib: Library) {
    && Eligible(cs, k, options, lib)
    && exists currency :: Prefers(options, p, currency) && IsIn(lib.decode(cs[k].request).value, currency, lib)
  }

  predicate HasPreference(options: Options) {
    options.preferences != [] || options.currency.Some?
  }

  /** Challenge `k` is the first of the most preferred currency that any challenge offers. */
  ghost predicate IsBest(cs: seq<Offered>, k: nat, options: Options, lib: Library) {
    exists p :: Fits(cs, p, k, options, lib)
      && forall p', k' :: Fits(cs, p', k', options, lib) ==> p < p' || (p == p' && k <= k')
  }

  ghost predicate IsFirst(cs: seq<Offered>, k: nat, options: Options, lib: Library) {
    Eligible(cs, k, options, lib) && forall k' :: Eligible(cs, k', options, lib) ==> k <= k'
  }

  // ── The loops ──

  predicate Increasing(xs: seq<nat>) {
    forall i, j :: 0 <= i < j < |xs| ==> xs[i] < xs[j]
  }

  /** The first loop: the eligible challenges in server order, unless one does not decode. */
  method Candidates(cs: seq<Offered>, options: Options, lib: Library) returns (r: Option<seq<nat>>)
    ensures r.None? <==> exists k :: Undecodable(cs, k, lib)
    ensures r.Some? ==> Increasing(r.value) && forall k: nat :: k in r.value <==> Eligible(cs, k, options, lib)
  {
    var candidates: seq<nat> := [];
    for k := 0 to |cs|
      invariant forall j :: 0 <= j < k ==> !Undecodable(cs, j, lib)
      invariant Increasing(candidates) && forall i :: 0 <= i < |candidates| ==> candidates[i] < k
      invariant forall j: nat :: j < k ==> (j in candidates <==> Eligible(cs, j, options, lib))
    {
      if !IsCharge(cs[k]) {
        continue;
      }
      var decoded := lib.decode(cs[k].request);
      if decoded.None? {
        assert Undecodable(cs, k, lib);
        return None;
      }
      if !MatchesNetwork(decoded.value, options.network) {
        continue;
      }
      candidates := candidates + [k];
    }
    r := Some(candidates);
  }

  /**
   * Selection fails exactly when a charge does not decode. Otherwise, without preferences it returns the first eligible
   * challenge, with preferences the best one, and nothing exactly when there is none.
   */
  method SelectChargeChallenge(cs: seq<Offered>, options: Options, lib: Library) returns (r: Result<Option<nat>, ()>)
    ensures r.Err? <==> exists k :: Undecodable(cs, k, lib)
    ensures r.Ok? && !HasPreference(options) ==>
      if r.value.Some? then IsFirst(cs, r.value.value, options, lib)
      else forall k :: !Eligible(cs, k, options, lib)
    ensures r.Ok? && HasPreference(options) ==>
      if r.value.Some? then IsBest(cs, r.value.value, options, lib)
      else forall p, k :: !Fits(cs, p, k, options, lib)
  {
    var found := Candidates(cs, options, lib);
    if found.None? {
      return Err(());
    }
    var candidates := found.value;
    if options.preferences == [] && options.currency.None? {
      if candidates == [] {
        return Ok(None);
      }
      assert candidates[0] in candidates;
      return Ok(Some(candidates[0]));
    }
    var preferences := Preferences(options);
    for p := 0 to |preferences|
      invariant forall p', k :: p' < p ==> !Fits(cs, p', k, options, lib)
    {
      for c := 0 to |candidates|
        invariant forall i :: 0 <= i < c ==> !Fits(cs, p, candidates[i], options, lib)
      {
        var k := candidates[c];
        assert k in candidates;
        if CurrenciesMatch(lib.decode(cs[k].request).value, preferences[p], lib) {
          assert Prefers(options, p, preferences[p]);
          assert Fits(cs, p, k, options, lib);
          return Ok(Some(k));
        }
      }
    }
    r := Ok(None);
  }

  /** Of two best challenges neither is better: the choice is determined by the options and the server's order. */
  lemma {:induction false} BestIsUnique(cs: seq<Offered>, k: nat, k': nat, options: Options, lib: Library)
    requires IsBest(cs, k, options, lib) && IsBest(cs, k', options, lib)
    ensures k == k'
  {
    var p :| Fits(cs, p, k, options, lib)
      && forall q, j :: Fits(cs, q, j, options, lib) ==> p < q || (p == q && k <= j);
    var p' :| Fits(cs, p', k', options, lib)
      && forall q, j :: Fits(cs, q, j, options, lib) ==> p' < q || (p' == q && k' <= j);
  }
}
