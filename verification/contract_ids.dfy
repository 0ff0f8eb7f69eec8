/** The closed set of contracts the deployer knows about, their display
    names (the keys of the generated .env file) and the address type. */
module ContractIds {
  import opened Wrappers

  /** `enum Contract` in deploy.rs. */
  datatype Contract = HotShot | PlonkVerifier | StateUpdateVK | LightClient | LightClientProxy

  const AllContracts: set<Contract> :=
    {HotShot, PlonkVerifier, StateUpdateVK, LightClient, LightClientProxy}

  lemma EveryContractListed(c: Contract)
    ensures c in AllContracts
  {
  }

  /** An L1 address is a 160-bit value; nothing but equality is used here. */
  const ADDRESS_LIMIT: nat := 0x1_0000_0000_0000_0000_0000_0000_0000_0000_0000_0000

  type Address = a: nat | a < ADDRESS_LIMIT

  /** Environment-variable text: upper-case letters and underscores only. */
  predicate VariableText(s: string)
  {
    forall k | 0 <= k < |s| :: 'A' <= s[k] <= 'Z' || s[k] == '_'
  }

  lemma VariableTextAppend(a: string, b: string)
    requires VariableText(a) && VariableText(b)
    ensures VariableText(a + b)
  {
    forall k | 0 <= k < |a + b|
      ensures 'A' <= (a + b)[k] <= 'Z' || (a + b)[k] == '_'
    {
      if k >= |a| {
        assert (a + b)[k] == b[k - |a|];
      }
    }
  }

  /** The parts of the `#[display(fmt = ...)]` names at lines 125-134. */
  const NamePrefix: string := "ESPRESSO_SEQUENCER_"
  const HotShotSuffix: string := "HOTSHOT_ADDRESS"
  const PlonkVerifierSuffix: string := "PLONK_VERIFIER_ADDRESS"
  const StateUpdateVKSuffix: string := "LIGHT_CLIENT_STATE_UPDATE_VK_ADDRESS"
  const LightClientSuffix: string := "LIGHT_CLIENT_ADDRESS"
  const LightClientProxySuffix: string := "LIGHT_CLIENT_PROXY_ADDRESS"

  lemma PrefixIsVariableText()
    ensures VariableText(NamePrefix)
  {
  }

  lemma HotShotSuffixText()
    ensures VariableText(HotShotSuffix)
  {
  }

  lemma PlonkVerifierSuffixText()
    ensures VariableText(PlonkVerifierSuffix)
  {
  }

  lemma StateUpdateVKSuffixText()
    ensures VariableText(StateUpdateVKSuffix)
  {
  }

  lemma LightClientSuffixText()
    ensures VariableText(LightClientSuffix)
  {
  }

  lemma LightClientProxySuffixText()
    ensures VariableText(LightClientProxySuffix)
  {
  }

  function NameSuffix(c: Contract): (r: string)
    ensures |r| > 0 && VariableText(r)
  {
    match c
    case HotShot => HotShotSuffixText(); HotShotSuffix
    case PlonkVerifier => PlonkVerifierSuffixText(); PlonkVerifierSuffix
    case StateUpdateVK => StateUpdateVKSuffixText(); StateUpdateVKSuffix
    case LightClient => LightClientSuffixText(); LightClientSuffix
    case LightClientProxy => LightClientProxySuffixText(); LightClientProxySuffix
  }

  /** The `#[display(fmt = ...)]` name of each contract: the environment
      variable under which its address is written and read. Every name is
      plain variable text (so it holds neither `=` nor a line break) under
      the common `ESPRESSO_SEQUENCER_` prefix. */
  function DisplayName(c: Contract): (r: string)
    ensures VariableText(r)
    ensures |NamePrefix| < |r| && r[..|NamePrefix|] == NamePrefix
  {
    PrefixIsVariableText();
    VariableTextAppend(NamePrefix, NameSuffix(c));
    NamePrefix + NameSuffix(c)
  }

  /** Reading a display name back: the contract whose variable `n` is, if any. */
  function ContractNamed(n: string): (r: Option<Contract>)
    ensures r.Some? ==> DisplayName(r.value) == n
    ensures r.None? ==> forall c :: DisplayName(c) != n
  {
    if n == DisplayName(HotShot) then Some(HotShot)
    else if n == DisplayName(PlonkVerifier) then Some(PlonkVerifier)
    else if n == DisplayName(StateUpdateVK) then Some(StateUpdateVK)
    else if n == DisplayName(LightClient) then Some(LightClient)
    else if n == DisplayName(LightClientProxy) then Some(LightClientProxy)
    else None
  }

  /** Display names identify contracts: reading a name back gives the contract. */
  lemma DisplayNameRoundTrip(c: Contract)
    ensures ContractNamed(DisplayName(c)) == Some(c)
  {
  }

  lemma DisplayNameInjective(c: Contract, d: Contract)
    ensures DisplayName(c) == DisplayName(d) ==> c == d
  {
    DisplayNameRoundTrip(c);
    DisplayNameRoundTrip(d);
  }

  /** No two contracts share a display name. */
  lemma DisplayNamesDistinct()
    ensures forall c, d :: DisplayName(c) == DisplayName(d) ==> c == d
  {
    forall c, d
      ensures DisplayName(c) == DisplayName(d) ==> c == d
    {
      DisplayNameInjective(c, d);
    }
  }
}
