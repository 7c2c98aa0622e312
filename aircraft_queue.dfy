/**
 * The parts of the abstract AircraftQueue that every queue shares: the human-readable form, the
 * save-file form and the callsign list both are built from. Each is stated for a queue given by
 * its class name and what its getAircraftInOrder returns, None standing for null.
 */
module AircraftQueues {
  import opened Outcomes
  import opened JavaText
  import opened Entities

  /** getClass().getSimpleName() of the two queue classes. */
  const TakeoffQueueName: string := "TakeoffQueue"
  const LandingQueueName: string := "LandingQueue"

  /** The separator callsignList puts between callsigns: "," when encoding, ", " otherwise. */
  function ListSeparator(encode: bool): (sep: string)
    ensures CountChar(sep, ',') == 1 && sep[0] == ','
  {
    if encode then "," else ", "
  }

  /** What callsignList returns: nothing for a null or empty list, else the callsigns joined by `sep`. */
  function CallsignText(inOrder: Option<seq<Aircraft>>, sep: string): string {
    if inOrder.None? then "" else Join(Callsigns(inOrder.value), sep)
  }

  /**
   * callsignList: appends every callsign followed by the separator, then deletes the last
   * separator when anything was appended.
   */
  method CallsignList(inOrder: Option<seq<Aircraft>>, encode: bool) returns (text: string)
    ensures text == CallsignText(inOrder, ListSeparator(encode))
  {
    var sep := ListSeparator(encode);
    text := "";
    if inOrder.Some? && |inOrder.value| > 0 {
      var q := inOrder.value;
      var i := 0;
      while i < |q|
        invariant 0 <= i <= |q|
        invariant text == Terminated(Callsigns(q[..i]), sep)
      {
        assert Callsigns(q[..i + 1])[..i] == Callsigns(q[..i]);
        text := text + q[i].callsign + sep;
        i := i + 1;
      }
      assert q[..i] == q;
      TerminatedIsJoinPlusSeparator(Callsigns(q), sep);
      if |text| > 0 {
        text := text[..|text| - |sep|];
      }
    }
  }

  /** A null or empty list gives the empty text. */
  lemma CallsignTextOfNothing(sep: string)
    ensures CallsignText(None, sep) == "" && CallsignText(Some([]), sep) == ""
  {
  }

  /**
   * For k >= 1 callsigns without commas, the callsign list holds k - 1 commas, one per
   * separator, and it does not end in one when the last callsign is not empty.
   */
  lemma CallsignTextSeparators(q: seq<Aircraft>, encode: bool)
    requires |q| >= 1
    requires forall a :: a in q ==> ',' !in a.callsign
    ensures var text := CallsignText(Some(q), ListSeparator(encode));
            CountChar(text, ',') == |q| - 1
            && (q[|q| - 1].callsign != "" ==> text[|text| - 1] != ',')
  {
    var cs := Callsigns(q);
    assert forall k :: 0 <= k < |cs| ==> ',' !in cs[k] by {
      forall k | 0 <= k < |cs| ensures ',' !in cs[k] {
        assert q[k] in q;
      }
    }
    JoinSeparatorCount(cs, ListSeparator(encode), ',');
  }

  /** The human-readable form: "<class name> [<callsigns joined by ", ">]". */
  function QueueDisplay(name: string, inOrder: Option<seq<Aircraft>>): string {
    name + " [" + CallsignText(inOrder, ", ") + "]"
  }

  /** AircraftQueue.toString. */
  method QueueToString(name: string, inOrder: Option<seq<Aircraft>>) returns (s: string)
    ensures s == QueueDisplay(name, inOrder)
  {
    var aircraft := CallsignList(inOrder, false);
    s := name + " [" + aircraft + "]";
  }

  /** A queue with no aircraft, or a null list, shows as "<class name> []". */
  lemma QueueDisplayOfNothing(name: string)
    ensures QueueDisplay(name, Some([])) == name + " []"
    ensures QueueDisplay(name, None) == name + " []"
  {
  }

  /** The human-readable form opens with the class name and brackets the comma-separated callsigns. */
  lemma QueueDisplayShape(name: string, q: seq<Aircraft>)
    requires |q| >= 1
    requires forall a :: a in q ==> ',' !in a.callsign
    ensures var s := QueueDisplay(name, Some(q));
            s[..|name| + 2] == name + " [" && s[|s| - 1] == ']'
            && CountChar(s, ',') == CountChar(name, ',') + |q| - 1
  {
    CallsignTextSeparators(q, false);
    var text := CallsignText(Some(q), ", ");
    CountCharConcat(name + " [", text, ',');
    CountCharConcat(name + " [" + text, "]", ',');
    CountCharConcat(name, " [", ',');
  }

  /** The save-file form: "<class name>:<number of aircraft>", a line separator, then the callsigns joined by ",". */
  function QueueEncoding(name: string, q: seq<Aircraft>): string {
    name + ":" + NatToString(|q|) + LineSeparator + CallsignText(Some(q), ",")
  }

  /**
   * AircraftQueue.encode. The header takes the size of getAircraftInOrder(), so a queue whose
   * list is null fails with a NullPointerException.
   */
  method QueueEncode(name: string, inOrder: Option<seq<Aircraft>>) returns (r: Outcome<string>)
    ensures inOrder.None? ==> r == Crash
    ensures inOrder.Some? ==> r == Ok(QueueEncoding(name, inOrder.value))
  {
    if inOrder.None? {
      return Crash;
    }
    var encoded := name + ":" + NatToString(|inOrder.value|);
    encoded := encoded + LineSeparator;
    var aircraft := CallsignList(inOrder, true);
    encoded := encoded + aircraft;
    return Ok(encoded);
  }

  /** The encoded header is the first line, and the callsigns follow on a second line. */
  lemma QueueEncodingLines(name: string, q: seq<Aircraft>)
    requires ':' !in name && '\n' !in name
    requires forall a :: a in q ==> '\n' !in a.callsign
    ensures var lines := ReaderLines(QueueEncoding(name, q));
            |lines| >= 1 && lines[0] == name + ":" + NatToString(|q|)
            && (CallsignText(Some(q), ",") != "" ==> lines == [lines[0], CallsignText(Some(q), ",")])
  {
    var header := name + ":" + NatToString(|q|);
    var text := CallsignText(Some(q), ",");
    NatToStringHasNo(|q|, '\n');
    assert '\n' !in header;
    NoCharInJoin(Callsigns(q), ",", '\n');
    ReaderLinesOfTwo(header, text);
  }

  /** A character that no field and not the separator holds is not in the joined text. */
  lemma {:induction false} NoCharInJoin(fs: seq<string>, sep: string, c: char)
    requires c !in sep
    requires forall k :: 0 <= k < |fs| ==> c !in fs[k]
    ensures c !in Join(fs, sep)
  {
    if |fs| > 1 {
      NoCharInJoin(fs[..|fs| - 1], sep, c);
    }
  }
}
