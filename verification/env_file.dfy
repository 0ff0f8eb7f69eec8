/** The text of the .env file `Contracts::write` produces, a reader for it,
    and how the file is opened for writing. */
module EnvFile {
  import opened Wrappers
  import opened ContractIds
  import opened Registry

  function Pow16(n: nat): (r: nat)
    ensures r > 0
  {
    if n == 0 then 1 else 16 * Pow16(n - 1)
  }

  function HexDigit(n: nat): (ch: char)
    requires n < 16
  {
    if n < 10 then (n + '0' as int) as char else (n - 10 + 'a' as int) as char
  }

  function DigitValue(ch: char): Option<nat>
  {
    if '0' <= ch <= '9' then Some(ch as int - '0' as int)
    else if 'a' <= ch <= 'f' then Some(ch as int - 'a' as int + 10)
    else None
  }

  /** The lowest `width` hexadecimal digits of `a`, most significant first. */
  function HexDigits(a: nat, width: nat): (r: string)
    ensures |r| == width
    ensures forall k | 0 <= k < |r| :: DigitValue(r[k]).Some?
  {
    if width == 0 then "" else HexDigits(a / 16, width - 1) + [HexDigit(a % 16)]
  }

  /** The value of a string of hexadecimal digits. */
  function ParseHex(s: string): Option<nat>
  {
    if |s| == 0 then Some(0)
    else match (ParseHex(s[..|s| - 1]), DigitValue(s[|s| - 1]))
      case (Some(high), Some(low)) => Some(16 * high + low)
      case _ => None
  }

  lemma {:induction false} HexRoundTrip(a: nat, width: nat)
    requires a < Pow16(width)
    ensures ParseHex(HexDigits(a, width)) == Some(a)
  {
    if width > 0 {
      var s := HexDigits(a, width);
      assert s[..|s| - 1] == HexDigits(a / 16, width - 1);
      assert a / 16 < Pow16(width - 1);
      HexRoundTrip(a / 16, width - 1);
      assert DigitValue(HexDigit(a % 16)) == Some(a % 16);
    }
  }

  /** Forty hexadecimal digits: 160 bits. */
  const ADDRESS_DIGITS: nat := 40

  /** `{address:#x}`: `0x` and all forty digits of the 160-bit address. */
  function FormatAddress(a: Address): (r: string)
    ensures |r| == 42 && r[..2] == "0x"
    ensures forall k | 2 <= k < |r| :: DigitValue(r[k]).Some?
  {
    "0x" + HexDigits(a, ADDRESS_DIGITS)
  }

  function ParseAddress(v: string): Option<Address>
  {
    if |v| != 42 || v[..2] != "0x" then None
    else match ParseHex(v[2..])
      case Some(n) => if n < ADDRESS_LIMIT then Some(n) else None
      case None => None
  }

  lemma {:induction false} Pow16Add(x: nat, y: nat)
    ensures Pow16(x + y) == Pow16(x) * Pow16(y)
  {
    if x > 0 {
      Pow16Add(x - 1, y);
    }
  }

  /** Forty hexadecimal digits hold exactly the 160-bit addresses. */
  lemma Pow16Forty()
    ensures Pow16(ADDRESS_DIGITS) == ADDRESS_LIMIT
  {
    assert Pow16(5) == 0x10_0000;
    Pow16Add(5, 5);
    Pow16Add(10, 10);
    Pow16Add(20, 20);
  }

  lemma AddressRoundTrip(a: Address)
    ensures ParseAddress(FormatAddress(a)) == Some(a)
  {
    Pow16Forty();
    HexRoundTrip(a, ADDRESS_DIGITS);
    assert FormatAddress(a)[2..] == HexDigits(a, ADDRESS_DIGITS);
  }

  /** A name and a value, neither holding a line break, joined by `=` and
      terminated by a line break. */
  lemma LineLayout(name: string, value: string)
    requires forall k | 0 <= k < |name| :: name[k] != '\n'
    requires forall k | 0 <= k < |value| :: value[k] != '\n'
    ensures var r := name + "=" + value + "\n";
      && |r| == |name| + |value| + 2
      && r[..|name|] == name && r[|name|] == '='
      && IndexOf(r, '\n') == |r| - 1
  {
    var body := name + "=" + value;
    var r := name + "=" + value + "\n";
    assert r[..|name|] == name;
    forall k | 0 <= k < |body|
      ensures body[k] != '\n'
    {
      if k < |name| {
        assert body[k] == name[k];
      } else if k > |name| {
        assert body[k] == value[k - |name| - 1];
      }
    }
    IndexOfPrefix(body, '\n', []);
    assert r == body + ['\n'] + [];
  }

  lemma AddressHasNoLineBreak(a: Address)
    ensures forall k | 0 <= k < |FormatAddress(a)| :: FormatAddress(a)[k] != '\n'
  {
    var v := FormatAddress(a);
    assert v[0] == v[..2][0] && v[1] == v[..2][1];
  }

  /** One `writeln!(w, "{contract}={address:#x}")`. */
  function Line(c: Contract, a: Address): (r: string)
    ensures |r| == |DisplayName(c)| + 44
    ensures r[..|DisplayName(c)|] == DisplayName(c) && r[|DisplayName(c)|] == '='
    ensures IndexOf(r, '\n') == |r| - 1
  {
    AddressHasNoLineBreak(a);
    LineLayout(DisplayName(c), FormatAddress(a));
    DisplayName(c) + "=" + FormatAddress(a) + "\n"
  }

  /** The lines for the keys of `m` in the order `order` (the map's
      iteration order, which the model leaves open). */
  function Render(order: seq<Contract>, m: map<Contract, Address>): (r: string)
    requires forall k | 0 <= k < |order| :: order[k] in m
    ensures |r| == 0 <==> |order| == 0
    ensures |order| > 0 ==> r[|r| - 1] == '\n'
  {
    if |order| == 0 then "" else Line(order[0], m[order[0]]) + Render(order[1..], m)
  }

  /** `order` lists every key of `m` exactly once. */
  ghost predicate Enumerates(order: seq<Contract>, m: map<Contract, Address>)
  {
    && (forall k | 0 <= k < |order| :: order[k] in m)
    && (forall c | c in m :: c in order)
    && (forall i, j | 0 <= i < j < |order| :: order[i] != order[j])
  }

  /** Position of the first `ch` in `s`, or `|s|` when there is none. */
  function IndexOf(s: string, ch: char): (r: nat)
    ensures r <= |s|
    ensures forall k | 0 <= k < r :: s[k] != ch
    ensures r < |s| ==> s[r] == ch
  {
    if |s| == 0 then 0 else if s[0] == ch then 0 else 1 + IndexOf(s[1..], ch)
  }

  function ParseLine(line: string): Option<(Contract, Address)>
  {
    var eq := IndexOf(line, '=');
    if eq == |line| then None
    else match (ContractNamed(line[..eq]), ParseAddress(line[eq + 1..]))
      case (Some(c), Some(a)) => Some((c, a))
      case _ => None
  }

  /** Reading a .env file back: every line must be `NAME=0x<address>` for a
      distinct known contract. */
  function ParseEnv(text: string): Option<map<Contract, Address>>
    decreases |text|
  {
    if |text| == 0 then Some(map[])
    else
      var nl := IndexOf(text, '\n');
      if nl == |text| then None
      else match (ParseLine(text[..nl]), ParseEnv(text[nl + 1..]))
        case (Some((c, a)), Some(rest)) => if c in rest then None else Some(rest[c := a])
        case _ => None
  }

  lemma IndexOfPrefix(a: string, ch: char, b: string)
    requires forall k | 0 <= k < |a| :: a[k] != ch
    ensures IndexOf(a + [ch] + b, ch) == |a|
  {
    var s := a + [ch] + b;
    assert s[|a|] == ch;
    assert forall k | 0 <= k < |a| :: s[k] == a[k];
  }

  /** A line whose only line break is its last character keeps that break
      first when more text follows. */
  lemma FirstBreak(line: string, rest: string)
    requires |line| > 0 && IndexOf(line, '\n') == |line| - 1
    ensures IndexOf(line + rest, '\n') == |line| - 1
  {
    var body := line[..|line| - 1];
    assert line == body + ['\n'];
    assert line + rest == body + ['\n'] + rest;
    IndexOfPrefix(body, '\n', rest);
  }

  lemma NameHasNoSeparators(c: Contract)
    ensures forall k | 0 <= k < |DisplayName(c)| :: DisplayName(c)[k] != '=' && DisplayName(c)[k] != '\n'
  {
  }

  lemma ParseLineRoundTrip(c: Contract, a: Address)
    ensures ParseLine(DisplayName(c) + "=" + FormatAddress(a)) == Some((c, a))
  {
    var name := DisplayName(c);
    var line := name + "=" + FormatAddress(a);
    NameHasNoSeparators(c);
    IndexOfPrefix(name, '=', FormatAddress(a));
    assert line[..|name|] == name;
    assert line[|name| + 1..] == FormatAddress(a);
    DisplayNameRoundTrip(c);
    AddressRoundTrip(a);
  }

  /** The bindings of `m` for the contracts in `order`. */
  function Restrict(order: seq<Contract>, m: map<Contract, Address>): map<Contract, Address>
  {
    map c | c in order && c in m :: m[c]
  }

  /** Reading a file whose first line is `Line(c, a)`: the entry is added to
      what the remaining lines read as, and a repeated contract is refused. */
  lemma ParseFirstLine(c: Contract, a: Address, rest: string)
    ensures ParseEnv(Line(c, a) + rest) ==
      match ParseEnv(rest)
      case Some(tail) => if c in tail then None else Some(tail[c := a])
      case None => None
  {
    var line := Line(c, a);
    var body := DisplayName(c) + "=" + FormatAddress(a);
    var text := line + rest;
    assert line == body + "\n";
    FirstBreak(line, rest);
    assert text[..|body|] == body;
    assert text[|body| + 1..] == rest;
    ParseLineRoundTrip(c, a);
  }

  lemma RestrictCons(order: seq<Contract>, m: map<Contract, Address>)
    requires |order| > 0 && order[0] in m
    requires forall j | 1 <= j < |order| :: order[j] != order[0]
    ensures order[0] !in Restrict(order[1..], m)
    ensures Restrict(order[1..], m)[order[0] := m[order[0]]] == Restrict(order, m)
  {
    assert order == [order[0]] + order[1..];
  }

  lemma {:induction false} RenderParses(order: seq<Contract>, m: map<Contract, Address>)
    requires forall k | 0 <= k < |order| :: order[k] in m
    requires forall i, j | 0 <= i < j < |order| :: order[i] != order[j]
    ensures ParseEnv(Render(order, m)) == Some(Restrict(order, m))
  {
    if |order| > 0 {
      var c := order[0];
      var a := m[c];
      assert Render(order, m) == Line(c, a) + Render(order[1..], m);
      ParseFirstLine(c, a, Render(order[1..], m));
      RenderParses(order[1..], m);
      RestrictCons(order, m);
    } else {
      assert Restrict(order, m) == map[];
    }
  }

  /** Writing the rendered entries to a file opened with truncation: the
      file afterwards reads back as exactly the registry, whatever it held before. */
  function WriteTruncating(previous: string, order: seq<Contract>, m: map<Contract, Address>): (file: string)
    requires Enumerates(order, m)
    ensures ParseEnv(file) == Some(m)
  {
    RenderParses(order, m);
    assert Restrict(order, m) == m;
    Render(order, m)
  }

  /** `File::options().create(true).write(true).open(out)` followed by the
      writes: the new text overwrites the file from its start, and whatever
      the old file held beyond the new text's length is kept. */
  function WriteInPlace(previous: string, order: seq<Contract>, m: map<Contract, Address>): (file: string)
    requires Enumerates(order, m)
    ensures |file| == if |previous| > |Render(order, m)| then |previous| else |Render(order, m)|
    ensures file[..|Render(order, m)|] == Render(order, m)
    ensures |previous| > |Render(order, m)| ==> file[|Render(order, m)|..] == previous[|Render(order, m)|..]
  {
    Overlay(previous, Render(order, m))
  }

  /** `text` written from the start of `previous` without truncating. */
  function Overlay(previous: string, text: string): (file: string)
    ensures |file| == if |previous| > |text| then |previous| else |text|
    ensures file[..|text|] == text
    ensures |previous| > |text| ==> file[|text|..] == previous[|text|..]
  {
    if |previous| > |text| then text + previous[|text|..] else text
  }

  lemma {:induction false} RenderAppend(first: seq<Contract>, second: seq<Contract>, m: map<Contract, Address>)
    requires forall k | 0 <= k < |first| :: first[k] in m
    requires forall k | 0 <= k < |second| :: second[k] in m
    ensures Render(first + second, m) == Render(first, m) + Render(second, m)
  {
    if |first| > 0 {
      assert (first + second)[1..] == first[1..] + second;
      RenderAppend(first[1..], second, m);
    } else {
      assert first + second == second;
    }
  }

  /** The text depends only on the bindings of the listed contracts. */
  lemma {:induction false} RenderAgrees(order: seq<Contract>, m: map<Contract, Address>, m': map<Contract, Address>)
    requires forall k | 0 <= k < |order| :: order[k] in m && order[k] in m' && m[order[k]] == m'[order[k]]
    ensures Render(order, m) == Render(order, m')
  {
    if |order| > 0 {
      RenderAgrees(order[1..], m, m');
    }
  }

  /** Every line of a contract has the same length whatever the address, so
      the length of the text depends only on which contracts are listed. */
  lemma {:induction false} RenderLength(order: seq<Contract>, m: map<Contract, Address>, m': map<Contract, Address>)
    requires forall k | 0 <= k < |order| :: order[k] in m && order[k] in m'
    ensures |Render(order, m)| == |Render(order, m')|
  {
    if |order| > 0 {
      RenderLength(order[1..], m, m');
    }
  }

  /** The contracts of a file produced for `order` followed by `extra`:
      all bound in `stale`, and those of `extra` are not in the new registry. */
  lemma SplitListing(order: seq<Contract>, extra: seq<Contract>,
                     m: map<Contract, Address>, stale: map<Contract, Address>)
    requires Enumerates(order, m)
    requires forall k | 0 <= k < |order + extra| :: (order + extra)[k] in stale
    requires forall i, j | 0 <= i < j < |order + extra| :: (order + extra)[i] != (order + extra)[j]
    ensures forall k | 0 <= k < |order| :: order[k] in stale
    ensures forall k | 0 <= k < |extra| :: extra[k] in stale && extra[k] !in m
  {
    forall k | 0 <= k < |order|
      ensures order[k] in stale
    {
      assert (order + extra)[k] == order[k];
    }
    forall k | 0 <= k < |extra|
      ensures extra[k] in stale && extra[k] !in m
    {
      assert (order + extra)[|order| + k] == extra[k];
      forall i | 0 <= i < |order|
        ensures order[i] != extra[k]
      {
        assert (order + extra)[i] == order[i];
      }
    }
  }

  /** In-place rewriting over a file produced for `order` followed by
      `extra`: the new lines cover exactly the old lines of `order`, and the
      old lines of `extra` remain after them. */
  lemma InPlaceOverwritesPrefix(order: seq<Contract>, extra: seq<Contract>,
                                m: map<Contract, Address>, stale: map<Contract, Address>)
    requires Enumerates(order, m)
    requires forall k | 0 <= k < |order| :: order[k] in stale
    requires forall k | 0 <= k < |extra| :: extra[k] in stale
    ensures WriteInPlace(Render(order + extra, stale), order, m) == Render(order, m) + Render(extra, stale)
  {
    var previous := Render(order + extra, stale);
    var text := Render(order, m);
    var head := Render(order, stale);
    var tail := Render(extra, stale);
    var file := WriteInPlace(previous, order, m);
    RenderAppend(order, extra, stale);
    RenderLength(order, m, stale);
    Overwrite(previous, head, tail, text, file);
  }

  /** Writing `text` over `head + tail`, where `text` is as long as `head`,
      without truncating leaves `text + tail`. */
  lemma Overwrite(previous: string, head: string, tail: string, text: string, file: string)
    requires previous == head + tail && |head| == |text|
    requires |file| == if |previous| > |text| then |previous| else |text|
    requires file[..|text|] == text
    requires |previous| > |text| ==> file[|text|..] == previous[|text|..]
    ensures file == text + tail
  {
    if |tail| > 0 {
      assert previous[|text|..] == tail;
      PrefixSplit(file, text, tail);
    } else {
      assert file == text;
    }
  }

  /** A string of the length of `a + b` that starts with `a` and continues
      with `b` is `a + b`. */
  lemma PrefixSplit(s: string, a: string, b: string)
    requires |s| == |a| + |b|
    requires s[..|a|] == a && s[|a|..] == b
    ensures s == a + b
  {
    assert s == s[..|a|] + s[|a|..];
  }

  /** The same text, read as one listing of `order + extra` under the
      combined bindings. */
  lemma InPlaceText(order: seq<Contract>, extra: seq<Contract>,
                    m: map<Contract, Address>, stale: map<Contract, Address>)
    requires Enumerates(order, m)
    requires forall k | 0 <= k < |order + extra| :: (order + extra)[k] in stale
    requires forall i, j | 0 <= i < j < |order + extra| :: (order + extra)[i] != (order + extra)[j]
    ensures forall k | 0 <= k < |order + extra| :: (order + extra)[k] in m + Restrict(extra, stale)
    ensures WriteInPlace(Render(order + extra, stale), order, m) == Render(order + extra, m + Restrict(extra, stale))
  {
    SplitListing(order, extra, m, stale);
    InPlaceOverwritesPrefix(order, extra, m, stale);
    var mix := m + Restrict(extra, stale);
    MixCovers(order, extra, m, stale);
    RenderAgrees(order, m, mix);
    RenderAgrees(extra, stale, mix);
    RenderAppend(order, extra, mix);
  }

  /** The combined bindings bind every contract of `order + extra`. */
  lemma MixCovers(order: seq<Contract>, extra: seq<Contract>,
                  m: map<Contract, Address>, stale: map<Contract, Address>)
    requires forall k | 0 <= k < |order| :: order[k] in m
    requires forall k | 0 <= k < |extra| :: extra[k] in stale
    ensures forall k | 0 <= k < |order| :: order[k] in m + Restrict(extra, stale)
    ensures forall k | 0 <= k < |extra| :: extra[k] in m + Restrict(extra, stale)
    ensures forall k | 0 <= k < |order + extra| :: (order + extra)[k] in m + Restrict(extra, stale)
  {
    var mix := m + Restrict(extra, stale);
    forall k | 0 <= k < |order + extra|
      ensures (order + extra)[k] in mix
    {
      if k >= |order| {
        assert (order + extra)[k] == extra[k - |order|];
      }
    }
  }

  /** Rewriting in place over a longer file: the result reads back as the
      new registry plus the stale entries of `extra`, not as the registry. */
  lemma InPlaceKeepsStaleEntries(order: seq<Contract>, extra: seq<Contract>,
                                 m: map<Contract, Address>, stale: map<Contract, Address>)
    requires Enumerates(order, m)
    requires forall k | 0 <= k < |order + extra| :: (order + extra)[k] in stale
    requires forall i, j | 0 <= i < j < |order + extra| :: (order + extra)[i] != (order + extra)[j]
    ensures ParseEnv(WriteInPlace(Render(order + extra, stale), order, m)) == Some(m + Restrict(extra, stale))
  {
    var mix := m + Restrict(extra, stale);
    InPlaceText(order, extra, m, stale);
    RenderParses(order + extra, mix);
    RestrictCovers(order, extra, m, stale);
  }

  /** Every key of the combined bindings is listed in `order + extra`. */
  lemma RestrictCovers(order: seq<Contract>, extra: seq<Contract>,
                       m: map<Contract, Address>, stale: map<Contract, Address>)
    requires Enumerates(order, m)
    ensures Restrict(order + extra, m + Restrict(extra, stale)) == m + Restrict(extra, stale)
  {
    var mix := m + Restrict(extra, stale);
    forall c | c in mix
      ensures c in order + extra
    {
      if c in m {
        var i :| 0 <= i < |order| && order[i] == c;
        assert (order + extra)[i] == c;
      } else {
        var i :| 0 <= i < |extra| && extra[i] == c;
        assert (order + extra)[|order| + i] == c;
      }
    }
  }

  /** The rerun that exposes the difference: a full deployment wrote five
      lines, HotShot and the proxy first; a second run given HotShot and a
      proxy address deploys nothing and writes two lines over that file. */
  function FirstRun(hotshot: Address, proxy: Address, plonk: Address, vk: Address, lc: Address): map<Contract, Address>
  {
    map[HotShot := hotshot, LightClientProxy := proxy, PlonkVerifier := plonk, StateUpdateVK := vk, LightClient := lc]
  }

  const FirstOrder: seq<Contract> := [HotShot, LightClientProxy, PlonkVerifier, StateUpdateVK, LightClient]
  const SecondOrder: seq<Contract> := [HotShot, LightClientProxy]

  lemma StaleOfFirstRun(hotshot: Address, proxy: Address, plonk: Address, vk: Address, lc: Address, proxy': Address)
    ensures map[HotShot := hotshot, LightClientProxy := proxy'] + Restrict([PlonkVerifier, StateUpdateVK, LightClient], FirstRun(hotshot, proxy, plonk, vk, lc))
         == map[HotShot := hotshot, LightClientProxy := proxy', PlonkVerifier := plonk, StateUpdateVK := vk, LightClient := lc]
  {
    var r := Restrict([PlonkVerifier, StateUpdateVK, LightClient], FirstRun(hotshot, proxy, plonk, vk, lc));
    assert r == map[PlonkVerifier := plonk, StateUpdateVK := vk, LightClient := lc];
  }

  /** Opened without truncation, the file still carries the old verifier,
      key and light client lines: reading it back yields contracts the
      second registry does not have. */
  lemma RerunLeavesStaleLines(hotshot: Address, proxy: Address, plonk: Address, vk: Address, lc: Address, proxy': Address)
    ensures Enumerates(SecondOrder, map[HotShot := hotshot, LightClientProxy := proxy'])
    ensures var inPlace := ParseEnv(WriteInPlace(Render(FirstOrder, FirstRun(hotshot, proxy, plonk, vk, lc)),
                                                 SecondOrder, map[HotShot := hotshot, LightClientProxy := proxy']));
            && inPlace.Some?
            && inPlace.value == map[HotShot := hotshot, LightClientProxy := proxy', PlonkVerifier := plonk,
                                    StateUpdateVK := vk, LightClient := lc]
  {
    var first := FirstRun(hotshot, proxy, plonk, vk, lc);
    var second := map[HotShot := hotshot, LightClientProxy := proxy'];
    var extra := [PlonkVerifier, StateUpdateVK, LightClient];
    assert SecondOrder + extra == FirstOrder;
    assert Enumerates(SecondOrder, second);
    assert forall k | 0 <= k < |SecondOrder + extra| :: (SecondOrder + extra)[k] in first;
    assert forall i, j | 0 <= i < j < |SecondOrder + extra| :: (SecondOrder + extra)[i] != (SecondOrder + extra)[j];
    InPlaceKeepsStaleEntries(SecondOrder, extra, second, first);
    StaleOfFirstRun(hotshot, proxy, plonk, vk, lc, proxy');
  }

  /** Opened with truncation, the same rerun leaves a file that reads back
      as exactly the second registry. */
  lemma RerunTruncatedReadsBack(hotshot: Address, proxy: Address, plonk: Address, vk: Address, lc: Address, proxy': Address)
    ensures Enumerates(SecondOrder, map[HotShot := hotshot, LightClientProxy := proxy'])
    ensures ParseEnv(WriteTruncating(Render(FirstOrder, FirstRun(hotshot, proxy, plonk, vk, lc)),
                                     SecondOrder, map[HotShot := hotshot, LightClientProxy := proxy']))
            == Some(map[HotShot := hotshot, LightClientProxy := proxy'])
  {
  }
}
