/**
 * The Host model object of the common module: a mutable bean with an IP address, a label and a
 * list of ports, whose getPorts never returns null and whose toString shows the IP address and
 * the ports but not the label.
 */
module HostModel {
  import opened Wrappers
  import opened JavaText

  /** A port of a host. Port itself is not part of this model; a port is kept as the text its toString gives. */
  datatype Port = Port(text: string)

  /** String concatenation of a possibly-null string: the string itself, or "null". */
  function NullableText(s: Option<string>): string {
    if s.None? then "null" else s.value
  }

  /** The port texts in order. */
  function Texts(ps: seq<Port>): (r: seq<string>)
    ensures |r| == |ps|
    ensures forall i :: 0 <= i < |ps| ==> r[i] == ps[i].text
  {
    if ps == [] then [] else [ps[0].text] + Texts(ps[1..])
  }

  /** The port texts separated by ", ", as AbstractCollection.toString writes them between the brackets. */
  function JoinPorts(ps: seq<Port>): string {
    if |ps| == 0 then ""
    else if |ps| == 1 then ps[0].text
    else ps[0].text + ", " + JoinPorts(ps[1..])
  }

  /** The text of a possibly-null list of ports. */
  function ListText(ports: Option<seq<Port>>): string {
    if ports.None? then "null" else "[" + JoinPorts(ports.value) + "]"
  }

  /** The text of Host.toString for the given field values. */
  function HostText(ip: Option<string>, ports: Option<seq<Port>>): string {
    "Host{ip='" + NullableText(ip) + "', ports=" + ListText(ports) + "}"
  }

  /** Splits the text between the brackets of a list back into element texts, at each ',' and the space after it. */
  function SplitPortTexts(s: string): (r: seq<string>)
    ensures |r| >= 1
    decreases |s|
  {
    var k := IndexOf(s, ',');
    if k == |s| then [s]
    else if k + 1 < |s| && s[k + 1] == ' ' then [s[..k]] + SplitPortTexts(s[k + 2..])
    else [s[..k]] + SplitPortTexts(s[k + 1..])
  }

  /**
   * Reads two fields back out of head + first + mid + second + close: the first field ends at
   * the first occurrence of mid's opening character.
   */
  function CutFields(s: string, head: string, mid: string, close: char): Option<(string, string)>
    requires |mid| >= 1
  {
    if |s| < |head| + 1 || s[..|head|] != head || s[|s| - 1] != close then None
    else
      var rest := s[|head|..|s| - 1];
      var k := IndexOf(rest, mid[0]);
      if |rest| - k < |mid| || rest[k..k + |mid|] != mid then None
      else Some((rest[..k], rest[k + |mid|..]))
  }

  /** Reads the IP text and the ports text back out of a Host text. */
  function ParseHostText(s: string): Option<(string, string)> {
    CutFields(s, "Host{ip='", "', ports=", '}')
  }

  lemma CutFieldsInverse(head: string, first: string, mid: string, second: string, close: char)
    requires |mid| >= 1 && mid[0] !in first
    ensures CutFields(head + first + mid + second + [close], head, mid, close) == Some((first, second))
  {
    var rest := first + mid + second;
    var s := head + rest + [close];
    assert head + first + mid + second + [close] == s;
    SliceOfSum(head, rest, [close]);
    assert s[|s| - 1] == close;
    assert s[|head|..|s| - 1] == rest;
    SplitAtFirst(first, mid, second);
  }

  /** A Host text gives back its IP text and its ports text, provided the IP contains no quote. */
  lemma ParseHostTextInverse(ip: Option<string>, ports: Option<seq<Port>>)
    requires '\'' !in NullableText(ip)
    ensures ParseHostText(HostText(ip, ports)) == Some((NullableText(ip), ListText(ports)))
  {
    var mid := "', ports=";
    assert mid[0] == '\'';
    assert HostText(ip, ports) == "Host{ip='" + NullableText(ip) + mid + ListText(ports) + ['}'];
    CutFieldsInverse("Host{ip='", NullableText(ip), mid, ListText(ports), '}');
  }

  /** One or more port texts with no ',' in them are read back from the list text. */
  lemma {:induction false} SplitJoinPorts(ps: seq<Port>)
    requires |ps| >= 1
    requires forall i :: 0 <= i < |ps| ==> ',' !in ps[i].text
    ensures SplitPortTexts(JoinPorts(ps)) == Texts(ps)
    decreases |ps|
  {
    var t := ps[0].text;
    if |ps| == 1 {
      assert JoinPorts(ps) == t;
      assert IndexOf(t, ',') == |t|;
    } else {
      var rest := JoinPorts(ps[1..]);
      var s := JoinPorts(ps);
      assert s == t + [','] + (" " + rest);
      IndexOfAfter(t, ',', " " + rest);
      assert s[..|t|] == t;
      assert s[|t| + 1] == ' ';
      assert s[|t| + 2..] == rest;
      SplitJoinPorts(ps[1..]);
      assert Texts(ps) == [t] + Texts(ps[1..]);
    }
  }

  /** toString tells a null port list from an empty one, although getPorts returns an empty list for both. */
  lemma NullPortsShowAsNull(ip: Option<string>)
    ensures HostText(ip, None) != HostText(ip, Some([]))
  {
    var p := "Host{ip='" + NullableText(ip) + "', ports=";
    assert HostText(ip, None)[|p|] == 'n';
    assert HostText(ip, Some([]))[|p|] == '[';
  }

  class Host {
    var ip: Option<string>
    var hostLabel: Option<string>  // Java's `label` field (`label` is a Dafny keyword)
    var ports: Option<seq<Port>>

    /** The implicit no-argument constructor: every field starts out null. */
    constructor ()
      ensures ip == None && hostLabel == None && ports == None
    {
      ip := None;
      hostLabel := None;
      ports := None;
    }

    function GetIp(): (r: Option<string>)
      reads this
      ensures r == ip
    {
      ip
    }

    method SetIp(newIp: Option<string>)
      modifies this
      ensures ip == newIp && hostLabel == old(hostLabel) && ports == old(ports)
    {
      ip := newIp;
    }

    function GetLabel(): (r: Option<string>)
      reads this
      ensures r == hostLabel
    {
      hostLabel
    }

    /** The label is not part of the text, so setting it leaves toString as it was. */
    method SetLabel(newLabel: Option<string>)
      modifies this
      ensures hostLabel == newLabel && ip == old(ip) && ports == old(ports)
      ensures ToString() == old(ToString())
    {
      hostLabel := newLabel;
    }

    /** Never null: a missing list reads as an empty one. */
    function GetPorts(): (r: seq<Port>)
      reads this
      ensures ports.Some? ==> r == ports.value
      ensures ports.None? ==> r == []
    {
      if ports.None? then [] else ports.value
    }

    method SetPorts(newPorts: Option<seq<Port>>)
      modifies this
      ensures ports == newPorts && ip == old(ip) && hostLabel == old(hostLabel)
    {
      ports := newPorts;
    }

    /** toString: the IP address and the port list, readable back when the IP contains no quote. */
    function ToString(): (r: string)
      reads this
      ensures |r| >= 9 && r[..9] == "Host{ip='" && r[|r| - 1] == '}'
      ensures '\'' !in NullableText(ip) ==> ParseHostText(r) == Some((NullableText(ip), ListText(ports)))
    {
      var r := HostText(ip, ports);
      assert '\'' !in NullableText(ip) ==> ParseHostText(r) == Some((NullableText(ip), ListText(ports))) by {
        if '\'' !in NullableText(ip) {
          ParseHostTextInverse(ip, ports);
        }
      }
      r
    }
  }
}
