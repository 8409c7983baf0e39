/** The formatting helpers of src/lib/utils.ts: date, address and ether formatting,
    address recognition and block-explorer links. */
module Utils {
  import opened Json
  import opened Text

  /** The host renderings the model leaves uninterpreted: `new Date(s).toLocaleString()`
      for a date string, the same for a millisecond timestamp, and `JSON.stringify`. */
  datatype Renderers = Renderers(dateString: string -> string, timestamp: int -> string, json: Value -> string)

  /** `formatDate`: a falsy timestamp reads "Unknown"; any other is rendered by the
      locale's date formatter, which is a parameter of the model. */
  function FormatDate(timestamp: int, localeString: int -> string): (r: string)
    ensures timestamp == 0 ==> r == "Unknown"
    ensures timestamp != 0 ==> r == localeString(timestamp)
  {
    if timestamp == 0 then "Unknown" else localeString(timestamp)
  }

  const DefaultTruncation: nat := 6

  /** `truncateAddress(address, length)`: "Unknown" for a missing or empty address,
      the address itself when it is short, else its two ends around "...". */
  function TruncateAddress(address: Option<string>, length: nat := DefaultTruncation): (r: string)
    ensures address == None || address == Some("") ==> r == "Unknown"
    ensures address.Some? && address.value != "" && |address.value| <= 2 * length + 2 ==>
              r == address.value
    ensures address.Some? && |address.value| > 2 * length + 2 ==>
              && |r| == 2 * length + 3 && |r| <= |address.value|
              && r[..length] == address.value[..length]
              && r[length..length + 3] == "..."
              && r[length + 3..] == address.value[|address.value| - length..]
  {
    match address
    case None => "Unknown"
    case Some(a) =>
      if a == "" then "Unknown"
      else if |a| <= length * 2 + 2 then a
      else a[..length] + "..." + a[|a| - length..]
  }

  /** One ether is 10^18 wei. */
  const WeiPerEther: nat := 1_000_000_000_000_000_000

  /** `BigInt(wei)` on the inputs modelled: a string of decimal digits (the empty string
      denotes 0); None stands for the SyntaxError raised on anything else. */
  function ParseWei(wei: string): (r: Option<nat>)
    ensures r.Some? <==> AllDigits(wei)
  {
    if AllDigits(wei) then Some(ParseDecimal(wei)) else None
  }

  /** `formatEther(wei)`: the whole number of ether, by integer division of the wei
      amount; "0" when the amount cannot be parsed. The source's fractional branch
      tests the BigInt's decimal string for a '.', which it never holds. */
  function FormatEther(wei: string): (r: string)
    ensures AllDigits(wei) ==> r == NatToString(ParseDecimal(wei) / WeiPerEther)
    ensures !AllDigits(wei) ==> r == "0"
    ensures '.' !in r
  {
    match ParseWei(wei)
    case None => "0"
    case Some(n) => NatToString(n / WeiPerEther)
  }

  /** Formatting the decimal string of n wei shows floor(n / 10^18): the shown ether
      amount never exceeds the wei amount and falls short of it by less than one ether. */
  lemma FormatEtherTruncates(n: nat)
    ensures AllDigits(FormatEther(NatToString(n)))
    ensures ParseDecimal(FormatEther(NatToString(n))) * WeiPerEther <= n
    ensures n < (ParseDecimal(FormatEther(NatToString(n))) + 1) * WeiPerEther
  {
    ParseNatToString(n);
    ParseNatToString(n / WeiPerEther);
  }

  /** 1.5 ether formats as "1": the fraction is dropped. */
  lemma FormatEtherDropsFraction()
    ensures FormatEther(NatToString(15 * WeiPerEther / 10)) == "1"
    ensures FormatEther(NatToString(0)) == "0"
  {
    ParseNatToString(15 * WeiPerEther / 10);
    ParseNatToString(0);
  }

  /** One millionth of an ether, the finest unit the display keeps. */
  const WeiPerMicroEther: nat := 1_000_000_000_000

  /** The millionths of an ether beyond the whole ethers, truncated. */
  function MicroFraction(n: nat): (m: nat)
    ensures m < 1_000_000
  {
    (n / WeiPerMicroEther) % 1_000_000
  }

  /** m millionths as six digits, with leading zeros. */
  function SixDigits(m: nat): (r: string)
    requires m < 1_000_000
    ensures |r| == 6 && AllDigits(r) && ParseDecimal(r) == m
  {
    var digits := NatToString(m);
    NatToStringLength(m, 6);
    ParseAppend(Zeros(6 - |digits|), digits);
    ParseZeros(6 - |digits|);
    ParseNatToString(m);
    Zeros(6 - |digits|) + digits
  }

  /** The fractional digits shown for m millionths: six digits, truncated, without
      trailing zeros, so that padding them back with zeros to six gives m. */
  function FractionText(m: nat): (f: string)
    requires m < 1_000_000
    ensures |f| <= 6 && AllDigits(f)
    ensures f == "" <==> m == 0
    ensures f != "" ==> f[|f| - 1] != '0'
    ensures AllDigits(f + Zeros(6 - |f|)) && ParseDecimal(f + Zeros(6 - |f|)) == m
  {
    TrimSixDigits(m);
    TrimZeros(SixDigits(m))
  }

  lemma TrimSixDigits(m: nat)
    requires m < 1_000_000
    ensures var f := TrimZeros(SixDigits(m));
              && AllDigits(f)
              && (f == "" <==> m == 0)
  {
    var padded := SixDigits(m);
    var f := TrimZeros(padded);
    assert padded == f + Zeros(6 - |f|);
    forall i | 0 <= i < |f| ensures IsDigit(f[i]) {
      assert f[i] == padded[i];
    }
    if m == 0 {
      assert padded == Zeros(6) by {
        forall i | 0 <= i < 6 ensures padded[i] == '0' {
          ZeroDigits(padded, i);
        }
      }
    }
    if f != "" {
      assert padded[|f| - 1] == f[|f| - 1];
      NonzeroDigit(padded, |f| - 1);
    }
    if f == "" {
      assert padded == Zeros(6);
      ParseZeros(6);
    }
  }

  /** A digit string with a nonzero digit has a positive value. */
  lemma {:induction false} NonzeroDigit(s: string, i: nat)
    requires AllDigits(s) && i < |s| && s[i] != '0'
    ensures ParseDecimal(s) > 0
    decreases |s|
  {
    if i < |s| - 1 {
      NonzeroDigit(s[..|s| - 1], i);
    }
  }

  /** A digit string of value 0 has only zero digits. */
  lemma {:induction false} ZeroDigits(s: string, i: nat)
    requires AllDigits(s) && ParseDecimal(s) == 0 && i < |s|
    ensures s[i] == '0'
    decreases |s|
  {
    var init := s[..|s| - 1];
    if i < |s| - 1 {
      ZeroDigits(init, i);
    }
  }

  /** `formatEther` as its comments describe it: the whole ethers, then a '.' and
      the fraction to at most six digits, truncated, when it is not zero. */
  function FormatEtherDecimal(wei: string): (r: string)
    ensures !AllDigits(wei) ==> r == "0"
    ensures AllDigits(wei) ==>
              var n := ParseDecimal(wei);
              r == NatToString(n / WeiPerEther) +
                   (if MicroFraction(n) == 0 then "" else "." + FractionText(MicroFraction(n)))
  {
    match ParseWei(wei)
    case None => "0"
    case Some(n) =>
      var f := FractionText(MicroFraction(n));
      NatToString(n / WeiPerEther) + (if f == "" then "" else "." + f)
  }

  /** 1.5 ether formats as "1.5". */
  lemma FormatEtherDecimalOneAndAHalf()
    ensures FormatEtherDecimal(NatToString(15 * WeiPerEther / 10)) == "1.5"
  {
    ParseNatToString(15 * WeiPerEther / 10);
    OneAndAHalfDigits(NatToString(15 * WeiPerEther / 10));
  }

  lemma OneAndAHalfDigits(wei: string)
    requires AllDigits(wei) && ParseDecimal(wei) == 15 * WeiPerEther / 10
    ensures FormatEtherDecimal(wei) == "1.5"
  {
    OneAndAHalfArithmetic(ParseDecimal(wei));
    HalfFraction();
    assert NatToString(1) == "1";
  }

  lemma OneAndAHalfArithmetic(n: nat)
    requires n == 15 * WeiPerEther / 10
    ensures n / WeiPerEther == 1 && MicroFraction(n) == 500000
  {
  }

  lemma HalfFraction()
    ensures FractionText(500000) == "5"
  {
    assert NatToString(500000) == "500000";
    assert SixDigits(500000) == "500000" by {
      assert Zeros(0) == "";
    }
    assert TrimZeros("500000") == "5" by {
      assert "500000"[..5] == "50000";
      assert "50000"[..4] == "5000";
      assert "5000"[..3] == "500";
      assert "500"[..2] == "50";
      assert "50"[..1] == "5";
    }
  }

  /** A whole number of ether shows no '.'. */
  lemma FormatEtherDecimalWhole(k: nat)
    ensures FormatEtherDecimal(NatToString(k * WeiPerEther)) == NatToString(k)
  {
    var n := k * WeiPerEther;
    ParseNatToString(n);
    WholeEtherArithmetic(k);
  }

  lemma WholeEtherArithmetic(k: nat)
    ensures (k * WeiPerEther) / WeiPerMicroEther == k * 1_000_000
    ensures (k * 1_000_000) % 1_000_000 == 0
    ensures (k * WeiPerEther) / WeiPerEther == k
  {
  }

  /** `isEthereumAddress`: "0x" followed by exactly forty hexadecimal digits. */
  predicate IsEthereumAddress(value: string)
  {
    |value| == 42 && value[0] == '0' && value[1] == 'x' &&
    forall i | 2 <= i < 42 :: IsHexDigit(value[i])
  }

  predicate IsHexString(s: string)
  {
    forall i | 0 <= i < |s| :: IsHexDigit(s[i])
  }

  /** The anchored pattern `^0x[a-fA-F0-9]{40}$` read as a concatenation: a value is an
      address exactly when it is "0x" followed by a string of forty hex digits. */
  lemma EthereumAddressShape(value: string)
    ensures IsEthereumAddress(value) <==> exists digits :: |digits| == 40 && IsHexString(digits) && value == "0x" + digits
  {
    if IsEthereumAddress(value) {
      var digits := value[2..];
      assert value == "0x" + digits;
      forall i | 0 <= i < |digits| ensures IsHexDigit(digits[i]) {
        assert digits[i] == value[i + 2];
      }
    }
    if exists digits :: |digits| == 40 && IsHexString(digits) && value == "0x" + digits {
      var digits :| |digits| == 40 && IsHexString(digits) && value == "0x" + digits;
      forall i | 2 <= i < 42 ensures IsHexDigit(value[i]) {
        assert value[i] == digits[i - 2];
      }
    }
  }

  /** Lower-casing keeps an address an address. */
  lemma LowerKeepsAddress(a: string)
    requires IsEthereumAddress(a)
    ensures IsEthereumAddress(Lower(a))
  {
    var l := Lower(a);
    forall i | 2 <= i < 42 ensures IsHexDigit(l[i]) {
      assert l[i] == LowerChar(a[i]);
    }
  }

  /** A standard 42-character address truncates to its first six and last six
      characters around "...". */
  lemma TruncateStandardAddress(a: string)
    requires IsEthereumAddress(a)
    ensures TruncateAddress(Some(a)) == a[..6] + "..." + a[36..]
    ensures |TruncateAddress(Some(a))| == 15
  {
  }

  /** `getFirstAccountAddress`: the first key of the accounts record, or "" when it has none. */
  function FirstAccountAddress(accounts: seq<(string, Value)>): (r: string)
    ensures accounts == [] ==> r == ""
    ensures accounts != [] ==> r == accounts[0].0
  {
    if |accounts| > 0 then accounts[0].0 else ""
  }

  /** The first key is one of the keys; with no empty key, "" means there are no accounts. */
  lemma FirstAccountAddressIsAKey(accounts: seq<(string, Value)>)
    ensures FirstAccountAddress(accounts) == "" || exists i :: 0 <= i < |accounts| && accounts[i].0 == FirstAccountAddress(accounts)
    ensures (forall i | 0 <= i < |accounts| :: accounts[i].0 != "") ==>
              (FirstAccountAddress(accounts) == "" <==> accounts == [])
  {
  }

  const DefaultExplorer := "https://etherscan.io"

  /** The explorers table: chain id and block-explorer base URL, in the order written. */
  const Explorers: seq<(string, string)> := [
    ("1", "https://etherscan.io"),
    ("3", "https://ropsten.etherscan.io"),
    ("4", "https://rinkeby.etherscan.io"),
    ("5", "https://goerli.etherscan.io"),
    ("42", "https://kovan.etherscan.io"),
    ("56", "https://bscscan.com"),
    ("97", "https://testnet.bscscan.com"),
    ("137", "https://polygonscan.com"),
    ("80001", "https://mumbai.polygonscan.com"),
    ("42161", "https://arbiscan.io"),
    ("421611", "https://testnet.arbiscan.io"),
    ("10", "https://optimistic.etherscan.io"),
    ("69", "https://kovan-optimistic.etherscan.io"),
    ("43114", "https://snowtrace.io"),
    ("43113", "https://testnet.snowtrace.io"),
    ("250", "https://ftmscan.com"),
    ("4002", "https://testnet.ftmscan.com"),
    ("100", "https://gnosisscan.io"),
    ("11155111", "https://sepolia.etherscan.io")
  ]

  predicate IsHttps(url: string)
  {
    |url| > 8 && url[..8] == "https://"
  }

  /** `getExplorerBaseUrl`: the tabled explorer, or Etherscan for an unknown chain. */
  function ExplorerBaseUrl(chainId: string): (r: string)
    ensures (chainId, r) in Explorers || r == DefaultExplorer
    ensures (forall i | 0 <= i < |Explorers| :: Explorers[i].0 != chainId) ==> r == DefaultExplorer
  {
    var url := Lookup(Explorers, chainId);
    if url.Some? && url.value != "" then url.value else DefaultExplorer
  }

  /** Every explorer, tabled or default, is an https URL. */
  lemma ExplorerIsHttps(chainId: string)
    ensures IsHttps(ExplorerBaseUrl(chainId))
  {
    forall i | 0 <= i < |Explorers| ensures IsHttps(Explorers[i].1) {
      AllTabledHttps(i);
    }
    LookupHas(Explorers, chainId, IsHttps);
  }

  /** Mainnet resolves to Etherscan. */
  lemma ExplorerMainnet()
    ensures ExplorerBaseUrl("1") == DefaultExplorer
  {
  }

  /** No chain id is tabled twice. */
  lemma ExplorerIdsDistinct(i: nat, j: nat)
    requires i < j < |Explorers|
    ensures Explorers[i].0 != Explorers[j].0
  {
    var a, b := Explorers[i].0, Explorers[j].0;
    if |a| == |b| {
      assert a[0] != b[0] || a[|a| - 1] != b[|b| - 1];
    }
  }

  /** Every tabled chain id resolves to its own explorer. */
  lemma ExplorerTabled(i: nat)
    requires i < |Explorers|
    ensures ExplorerBaseUrl(Explorers[i].0) == Explorers[i].1
  {
    forall j | 0 <= j < i ensures Explorers[j].0 != Explorers[i].0 {
      ExplorerIdsDistinct(j, i);
    }
    LookupFirst(Explorers, i);
    AllTabledHttps(i);
  }

  lemma AllTabledHttps(i: nat)
    requires i < |Explorers|
    ensures IsHttps(Explorers[i].1)
  {
  }

  /** `chainId || "1"`: a missing or empty chain id means Ethereum mainnet. */
  function ChainOrMainnet(chainId: Option<string>): (r: string)
    ensures r != ""
    ensures chainId.Some? && chainId.value != "" ==> r == chainId.value
  {
    if chainId.Some? && chainId.value != "" then chainId.value else "1"
  }

  /** `getBlockExplorerUrl(txHash, chainId)`. */
  function BlockExplorerUrl(txHash: string, chainId: Option<string>): (r: string)
    ensures r == ExplorerBaseUrl(ChainOrMainnet(chainId)) + "/tx/" + txHash
  {
    ExplorerBaseUrl(ChainOrMainnet(chainId)) + "/tx/" + txHash
  }

  /** `getAddressExplorerUrl(address, chainId)`. */
  function AddressExplorerUrl(address: string, chainId: Option<string>): (r: string)
    ensures r == ExplorerBaseUrl(ChainOrMainnet(chainId)) + "/address/" + address
  {
    ExplorerBaseUrl(ChainOrMainnet(chainId)) + "/address/" + address
  }

  /** Links without a chain id, or with an empty one, point at Etherscan. */
  lemma ExplorerLinksDefault(txHash: string, address: string, chainId: Option<string>)
    requires chainId.None? || chainId.value == ""
    ensures BlockExplorerUrl(txHash, chainId) == DefaultExplorer + "/tx/" + txHash
    ensures AddressExplorerUrl(address, chainId) == DefaultExplorer + "/address/" + address
  {
    assert ChainOrMainnet(chainId) == "1";
    ExplorerMainnet();
  }

  /** A link ends with the hash or address it was built from. */
  lemma ExplorerLinksSuffix(txHash: string, address: string, chainId: Option<string>)
    ensures var u := BlockExplorerUrl(txHash, chainId);
              |u| >= |txHash| + 4 && u[|u| - |txHash| - 4..] == "/tx/" + txHash
    ensures var u := AddressExplorerUrl(address, chainId);
              |u| >= |address| + 9 && u[|u| - |address| - 9..] == "/address/" + address
  {
    var b := ExplorerBaseUrl(ChainOrMainnet(chainId));
    EndsWith(b, "/tx/", txHash);
    EndsWith(b, "/address/", address);
  }

  lemma EndsWith(b: string, sep: string, x: string)
    ensures var u := b + sep + x;
              |u| >= |x| + |sep| && u[|u| - |x| - |sep|..] == sep + x
  {
    var u := b + sep + x;
    assert u == b + (sep + x);
  }
}
