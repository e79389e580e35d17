/** `QueueData`: one pad of the performance queue, a bank/pattern pair with a play
    state and a lazily filled, tone-ordered registry of channels. The channels' own
    behaviour and the song they belong to are not part of this model. */
module QueueDatas {
  import opened Wrappers
  import SortedMaps

  datatype QueueDataState = Idle | Play | PlayUnqueued | Queue | UnQueued

  /** The enum constant's name, as `Enum.toString` gives it. */
  function StateName(s: QueueDataState): string {
    match s
    case Idle => "Idle"
    case Play => "Play"
    case PlayUnqueued => "PlayUnqueued"
    case Queue => "Queue"
    case UnQueued => "UnQueued"
  }

  /** A phrase of a track, known by tone, bank and pattern. */
  datatype PhraseRef = PhraseRef(toneIndex: int, bankIndex: int, patternIndex: int)

  /** The decimal digit for `d`. */
  function DigitChar(d: nat): char
    requires d < 10
  {
    "0123456789"[d]
  }

  /** The value of a decimal digit character. */
  function DigitValue(c: char): nat {
    if '0' <= c <= '9' then (c - '0') as nat else 0
  }

  /** `n` in decimal without leading zeros, as `Integer.toString` writes it. */
  function NatToString(n: nat): (r: string)
    ensures |r| > 0 && '0' <= r[0] <= '9'
    decreases n
  {
    if n < 10 then [DigitChar(n)] else NatToString(n / 10) + [DigitChar(n % 10)]
  }

  /** Every character of a rendered number is a decimal digit. */
  lemma {:induction false} NatToStringDigits(n: nat)
    ensures forall k :: 0 <= k < |NatToString(n)| ==> '0' <= NatToString(n)[k] <= '9'
    decreases n
  {
    if n >= 10 {
      NatToStringDigits(n / 10);
    }
  }

  /** `i` in decimal with a leading minus when negative. */
  function IntToString(i: int): (r: string)
    ensures |r| > 0
    ensures i < 0 <==> r[0] == '-'
  {
    if i < 0 then "-" + NatToString(-i) else NatToString(i)
  }

  /** Reads a string of decimal digits back. */
  function ParseNat(s: string): nat {
    if |s| == 0 then 0 else ParseNat(s[..|s| - 1]) * 10 + DigitValue(s[|s| - 1])
  }

  /** Reads a decimal with an optional leading minus back. */
  function ParseInt(s: string): int {
    if |s| > 0 && s[0] == '-' then -(ParseNat(s[1..]) as int) else ParseNat(s)
  }

  lemma {:induction false} NatToStringRoundTrip(n: nat)
    ensures ParseNat(NatToString(n)) == n
    decreases n
  {
    var r := NatToString(n);
    if n >= 10 {
      NatToStringRoundTrip(n / 10);
      assert r[..|r| - 1] == NatToString(n / 10);
    }
  }

  /** Every number the label shows reads back as itself. */
  lemma IntToStringRoundTrip(i: int)
    ensures ParseInt(IntToString(i)) == i
  {
    if i < 0 {
      var digits := NatToString(-i);
      assert IntToString(i) == "-" + digits;
      NatToStringRoundTrip(-i);
      ParseSigned(digits);
    } else {
      var digits := NatToString(i);
      assert IntToString(i) == digits;
      NatToStringRoundTrip(i);
      ParseUnsigned(digits);
    }
  }

  /** A minus before digits negates what they read as. */
  lemma ParseSigned(digits: string)
    ensures ParseInt("-" + digits) == -(ParseNat(digits) as int)
  {
    assert ("-" + digits)[1..] == digits;
  }

  /** A string that does not start with a minus reads as an unsigned number. */
  lemma ParseUnsigned(digits: string)
    requires |digits| > 0 && digits[0] != '-'
    ensures ParseInt(digits) == ParseNat(digits)
  {
  }

  /** A channel of the pad, created for one tone. */
  class Channel {
    const toneIndex: int

    constructor (toneIndex: int)
      ensures this.toneIndex == toneIndex
    {
      this.toneIndex := toneIndex;
    }
  }

  class QueueData {
    var channels: map<int, Channel>
    var name: Option<string>
    const bankIndex: int
    const patternIndex: int
    var state: QueueDataState
    var viewChannelIndex: int

    /** Every channel is filed under its own tone index. */
    ghost predicate Valid()
      reads this, channels.Values
    {
      forall i :: i in channels ==> channels[i].toneIndex == i
    }

    /** `new QueueData(bank, pattern)`: idle, no view channel, no channels, no name. */
    constructor (bankIndex: int, patternIndex: int)
      ensures Valid()
      ensures this.bankIndex == bankIndex && this.patternIndex == patternIndex
      ensures state == Idle && viewChannelIndex == -1 && channels == map[] && name == None
    {
      this.bankIndex := bankIndex;
      this.patternIndex := patternIndex;
      state := Idle;
      viewChannelIndex := -1;
      channels := map[];
      name := None;
    }

    /** `setState`. */
    method SetState(value: QueueDataState)
      modifies this
      ensures state == value
      ensures channels == old(channels) && name == old(name) && viewChannelIndex == old(viewChannelIndex)
    {
      state := value;
    }

    /** `setViewChannelIndex`: any index, -1 included, is taken. */
    method SetViewChannelIndex(value: int)
      modifies this
      ensures viewChannelIndex == value
      ensures channels == old(channels) && name == old(name) && state == old(state)
    {
      viewChannelIndex := value;
    }

    /** `hasChannel`. */
    function HasChannel(toneIndex: int): (r: bool)
      reads this
      ensures r <==> toneIndex in channels
    {
      toneIndex in channels
    }

    /** `hasChannels`: the registry is not empty. */
    function HasChannels(): (r: bool)
      reads this
      ensures r <==> exists i :: HasChannel(i)
    {
      if |channels| > 0 then
        var k := SortedMaps.Least(channels.Keys);
        assert HasChannel(k);
        true
      else
        false
    }

    /** `getChannel(tone)`: the channel filed at the tone, or a new one filed there.
        Repeated calls give the same channel; no other tone is touched. */
    method GetChannel(toneIndex: int) returns (c: Channel)
      requires Valid()
      modifies this
      ensures Valid()
      ensures c.toneIndex == toneIndex && HasChannel(toneIndex) && channels[toneIndex] == c
      ensures toneIndex in old(channels) ==> c == old(channels)[toneIndex] && channels == old(channels)
      ensures toneIndex !in old(channels) ==> fresh(c) && channels == old(channels)[toneIndex := c]
      ensures name == old(name) && state == old(state) && viewChannelIndex == old(viewChannelIndex)
    {
      if toneIndex in channels {
        return channels[toneIndex];
      }
      c := new Channel(toneIndex);
      channels := channels[toneIndex := c];
    }

    /** `getViewChannel`: the channel of the view index, filed on demand, even when
        the view index is still -1. */
    method GetViewChannel() returns (c: Channel)
      requires Valid()
      modifies this
      ensures Valid()
      ensures c.toneIndex == viewChannelIndex && viewChannelIndex in channels && channels[viewChannelIndex] == c
      ensures viewChannelIndex in old(channels) ==> channels == old(channels)
      ensures viewChannelIndex !in old(channels) ==> channels == old(channels)[viewChannelIndex := c]
      ensures viewChannelIndex == old(viewChannelIndex) && name == old(name) && state == old(state)
    {
      c := GetChannel(viewChannelIndex);
    }

    /** `getChannels`: a copy of the channels in ascending tone order. */
    method GetChannels() returns (r: seq<Channel>)
      requires Valid()
      ensures r == SortedMaps.ValuesInKeyOrder(channels)
      ensures |r| == |channels|
      ensures forall c :: c in r <==> c in channels.Values
      ensures forall i, j :: 0 <= i < j < |r| ==> r[i].toneIndex < r[j].toneIndex
    {
      r := SortedMaps.ValuesInKeyOrder(channels);
      ChannelsInToneOrder();
    }

    /** The value list of the registry holds each channel once, by ascending tone. */
    lemma ChannelsInToneOrder()
      requires Valid()
      ensures |SortedMaps.ValuesInKeyOrder(channels)| == |channels|
      ensures forall c :: c in SortedMaps.ValuesInKeyOrder(channels) <==> c in channels.Values
      ensures forall i, j :: 0 <= i < j < |channels| ==>
        SortedMaps.ValuesInKeyOrder(channels)[i].toneIndex < SortedMaps.ValuesInKeyOrder(channels)[j].toneIndex
    {
      var r := SortedMaps.ValuesInKeyOrder(channels);
      var ks := SortedMaps.SortedKeys(channels.Keys);
      assert |r| == |channels| by {
        assert |channels.Keys| == |channels|;
      }
      forall i | 0 <= i < |r|
        ensures r[i] == channels[ks[i]] && r[i].toneIndex == ks[i]
      {
        SortedMaps.ValuesInKeyOrderAt(channels, i);
      }
      forall c | c in channels.Values
        ensures c in r
      {
        var k :| k in channels && channels[k] == c;
        var i :| 0 <= i < |ks| && ks[i] == k;
        assert r[i] == c;
      }
      forall i, j | 0 <= i < j < |r|
        ensures r[i].toneIndex < r[j].toneIndex
      {
        assert SortedMaps.Below(ks, i, j);
      }
    }

    /** `getPhrase(tone)`: the lookup through the track is disabled, so there is never
        a phrase. */
    function GetPhraseOf(toneIndex: int): (r: Option<PhraseRef>)
      ensures r == None
    {
      None
    }

    /** `getPhrase()`: none while no view channel is assigned, otherwise the phrase of
        the view channel, which is none as well. */
    function GetPhrase(): (r: Option<PhraseRef>)
      reads this
      ensures viewChannelIndex == -1 ==> r == None
      ensures viewChannelIndex != -1 ==> r == GetPhraseOf(viewChannelIndex)
    {
      if viewChannelIndex == -1 then None else GetPhraseOf(viewChannelIndex)
    }

    /** `toString`: "Data{state}[bank,pattern]". */
    function ToString(): (r: string)
      reads this
      ensures |r| == 9 + |StateName(state)| + |IntToString(bankIndex)| + |IntToString(patternIndex)|
      ensures r[..5] == "Data{" && r[|r| - 1] == ']'
    {
      "Data{" + StateName(state) + "}[" + IntToString(bankIndex) + "," + IntToString(patternIndex) + "]"
    }

    /** The label shows the state's name between the braces and reads back the bank
        and pattern indices from the two fields between the brackets. */
    lemma LabelReadsBack()
      ensures var r, n := ToString(), |StateName(state)|;
        var b, p := IntToString(bankIndex), IntToString(patternIndex);
        && |r| == 9 + n + |b| + |p|
        && r[..5] == "Data{" && r[5..5 + n] == StateName(state) && r[5 + n..7 + n] == "}["
        && ParseInt(r[7 + n..7 + n + |b|]) == bankIndex
        && r[7 + n + |b|] == ','
        && ParseInt(r[8 + n + |b|..8 + n + |b| + |p|]) == patternIndex
        && r[|r| - 1] == ']'
    {
      LabelLayout(StateName(state), IntToString(bankIndex), IntToString(patternIndex));
      IntToStringRoundTrip(bankIndex);
      IntToStringRoundTrip(patternIndex);
    }
  }

  /** Where each piece of a `Data{state}[bank,pattern]` label sits. */
  lemma LabelLayout(s: string, b: string, p: string)
    ensures var r, n := "Data{" + s + "}[" + b + "," + p + "]", |s|;
      && |r| == 9 + n + |b| + |p|
      && r[..5] == "Data{" && r[5..5 + n] == s && r[5 + n..7 + n] == "}["
      && r[7 + n..7 + n + |b|] == b
      && r[7 + n + |b|] == ','
      && r[8 + n + |b|..8 + n + |b| + |p|] == p
      && r[|r| - 1] == ']'
  {
    var r := "Data{" + s + "}[" + b + "," + p + "]";
    var front := "Data{" + s + "}[";
    assert r == front + b + ("," + p + "]");
    Middle(front, b, "," + p + "]");
    Middle("Data{", s, "}[" + b + "," + p + "]");
    assert r == "Data{" + s + ("}[" + b + "," + p + "]");
    Middle(front + b + ",", p, "]");
    assert r == (front + b + ",") + p + "]";
  }

  /** The middle piece of a three-way concatenation is found where its length says. */
  lemma Middle(a: string, m: string, z: string)
    ensures (a + m + z)[|a|..|a| + |m|] == m
    ensures (a + m + z)[..|a|] == a
  {
  }
}
