// Lines of the network log: found for the phrase check while the bytes go to
// the ring as they are. Models scan_lines and the packet loop in
// components/kvm_netlog/kvm_netlog.c.

module NetLines {
  import opened Sequences

  const LINE_MAX := 199

  predicate EndsLine(c: char) {
    c == '\n' || c == '\r'
  }

  function Short(s: string): string {
    if |s| <= LINE_MAX then s else s[..LINE_MAX]
  }

  // What is behind the last complete line.
  function Rest(s: string): string {
    if s == "" || EndsLine(s[|s| - 1]) then "" else Rest(s[..|s| - 1]) + [s[|s| - 1]]
  }

  // The lines of s that are complete and not empty, each cut to what fits.
  function Lines(s: string): seq<string> {
    if s == "" then [] else Lines(s[..|s| - 1]) + Completed(Rest(s[..|s| - 1]), s[|s| - 1])
  }

  function Completed(line: string, c: char): seq<string> {
    if EndsLine(c) && line != "" then [Short(line)] else []
  }

  lemma OneMoreByte(s: string, c: char)
    ensures Lines(s + [c]) == Lines(s) + Completed(Rest(s), c)
    ensures Rest(s + [c]) == if EndsLine(c) then "" else Rest(s) + [c]
  {
    assert (s + [c])[..|s|] == s;
  }

  /** Text that ends with a complete line splits from what follows. */
  lemma {:induction false} LinesOfTwo(a: string, b: string)
    requires Rest(a) == ""
    ensures Lines(a + b) == Lines(a) + Lines(b) && Rest(a + b) == Rest(b)
  {
    if b == "" {
      assert a + b == a;
    } else {
      var init, c := b[..|b| - 1], b[|b| - 1];
      LinesOfTwo(a, init);
      assert (a + b)[..|a + b| - 1] == a + init;
      Assoc(Lines(a), Lines(init), Completed(Rest(init), c));
    }
  }

  // ---- what the lines are ----

  // No end of a line is in it, of either kind.
  predicate HasNoEnd(l: string) {
    forall i | 0 <= i < |l| :: l[i] != '\n' && l[i] != '\r'
  }

  // Each line with the end that was written behind it.
  function Joined(ls: seq<string>, ends: seq<char>): string
    requires |ls| == |ends|
  {
    if ls == [] then ""
    else Joined(ls[..|ls| - 1], ends[..|ls| - 1]) + (ls[|ls| - 1] + [ends[|ls| - 1]])
  }

  function NonEmpty(ls: seq<string>): seq<string> {
    if ls == [] then []
    else NonEmpty(ls[..|ls| - 1]) + if ls[|ls| - 1] == "" then [] else [ls[|ls| - 1]]
  }

  // As many characters of each line as a buffer of 200 holds, from its start.
  predicate IsCut(ls: seq<string>, r: seq<string>) {
    && |r| == |ls|
    && forall i | 0 <= i < |r| :: r[i] <= ls[i] && |r[i]| == if |ls[i]| < 199 then |ls[i]| else 199
  }

  lemma {:induction false} UnfinishedLine(l: string)
    requires HasNoEnd(l)
    ensures Lines(l) == [] && Rest(l) == l
  {
    if l != "" {
      UnfinishedLine(l[..|l| - 1]);
      assert l == l[..|l| - 1] + [l[|l| - 1]];
    }
  }

  /** Lines written one after another, each with either end, come back in order, the
      empty ones left out, cut to what fits; and what is behind them is kept. */
  lemma {:induction false} LinesComeBack(ls: seq<string>, ends: seq<char>, rest: string)
    requires |ls| == |ends| && HasNoEnd(rest)
    requires forall i | 0 <= i < |ls| :: HasNoEnd(ls[i]) && (ends[i] == '\n' || ends[i] == '\r')
    ensures IsCut(NonEmpty(ls), Lines(Joined(ls, ends) + rest)) && Rest(Joined(ls, ends) + rest) == rest
  {
    WholeLinesComeBack(ls, ends);
    UnfinishedLine(rest);
    LinesOfTwo(Joined(ls, ends), rest);
    assert Lines(Joined(ls, ends)) + [] == Lines(Joined(ls, ends));
  }

  lemma {:induction false} WholeLinesComeBack(ls: seq<string>, ends: seq<char>)
    requires |ls| == |ends|
    requires forall i | 0 <= i < |ls| :: HasNoEnd(ls[i]) && (ends[i] == '\n' || ends[i] == '\r')
    ensures IsCut(NonEmpty(ls), Lines(Joined(ls, ends))) && Rest(Joined(ls, ends)) == ""
  {
    if ls != [] {
      var n := |ls| - 1;
      WholeLinesComeBack(ls[..n], ends[..n]);
      WholeLine(ls[n], ends[n]);
      LinesOfTwo(Joined(ls[..n], ends[..n]), ls[n] + [ends[n]]);
      OneMoreCut(NonEmpty(ls[..n]), Lines(Joined(ls[..n], ends[..n])), ls[n]);
    }
  }

  lemma OneMoreCut(ls: seq<string>, r: seq<string>, l: string)
    requires IsCut(ls, r) && Short(l) <= l && |Short(l)| == if |l| < 199 then |l| else 199
    ensures IsCut(ls + [l], r + [Short(l)])
    ensures l == "" ==> IsCut(ls + [], r + [])
  {
    assert ls + [] == ls && r + [] == r;
  }

  lemma WholeLine(l: string, end: char)
    requires HasNoEnd(l) && (end == '\n' || end == '\r')
    ensures Lines(l + [end]) == (if l == "" then [] else [Short(l)]) && Rest(l + [end]) == ""
    ensures Short(l) <= l && |Short(l)| == if |l| < 199 then |l| else 199
  {
    UnfinishedLine(l);
    OneMoreByte(l, end);
  }

  // ---- packets ----

  datatype Check = Check(line: string, from: string)

  function From(ls: seq<string>, ip: string): (cs: seq<Check>)
    ensures |cs| == |ls| && forall i | 0 <= i < |cs| :: cs[i] == Check(ls[i], ip)
  {
    seq(|ls|, i requires 0 <= i < |ls| => Check(ls[i], ip))
  }

  // A packet as the ring gets it: a line of its own either way.
  function Ended(data: string): string {
    if data != "" && data[|data| - 1] == '\n' then data else data + "\n"
  }

  lemma EndedIsComplete(data: string)
    ensures Rest(Ended(data)) == ""
  {
    if data != "" && data[|data| - 1] == '\n' {
      assert data[..|data| - 1] + ['\n'] == data;
      OneMoreByte(data[..|data| - 1], '\n');
    } else {
      OneMoreByte(data, '\n');
    }
  }

  function Stream(packets: seq<string>): string {
    if packets == [] then "" else Stream(packets[..|packets| - 1]) + Ended(packets[|packets| - 1])
  }

  function LinesOfEach(packets: seq<string>): seq<string> {
    if packets == [] then []
    else LinesOfEach(packets[..|packets| - 1]) + Lines(Ended(packets[|packets| - 1]))
  }

  /** Whatever the packets, no line runs from one into the next: the lines of the
      log are the lines of its packets. */
  lemma {:induction false} PacketsKeepTheirLines(packets: seq<string>)
    ensures Lines(Stream(packets)) == LinesOfEach(packets) && Rest(Stream(packets)) == ""
  {
    if packets != [] {
      var init, last := packets[..|packets| - 1], packets[|packets| - 1];
      PacketsKeepTheirLines(init);
      LinesOfTwo(Stream(init), Ended(last));
      EndedIsComplete(last);
    }
  }

  class Scanner {
    var line: string
    ghost var stream: string        // every byte scanned
    ghost var checked: seq<Check>   // every line handed on, with its sender

    ghost predicate Valid()
      reads this
    {
      line == Short(Rest(stream))
    }

    constructor ()
      ensures Valid() && stream == "" && checked == []
    {
      line, stream, checked := "", "", [];
    }

    method Byte(c: char, from: string)
      requires Valid()
      modifies this
      ensures Valid() && stream == old(stream) + [c]
      ensures checked == old(checked) + From(Completed(Rest(old(stream)), c), from)
    {
      OneMoreByte(stream, c);
      stream := stream + [c];
      if EndsLine(c) {
        if |line| > 0 {
          checked := checked + [Check(line, from)];
          line := "";
        }
      } else if |line| < LINE_MAX {
        line := line + [c];
      }
    }

    method ScanLines(data: string, from: string)
      requires Valid() && Rest(stream) == ""
      modifies this
      ensures Valid() && stream == old(stream) + data
      ensures checked == old(checked) + From(Lines(data), from) && Rest(stream) == Rest(data)
    {
      ghost var was, before := stream, checked;
      assert data[..0] == "" && was + "" == was;
      for i := 0 to |data|
        invariant Valid() && stream == was + data[..i]
        invariant checked == before + From(Lines(data[..i]), from)
      {
        var c := data[i];
        OneMoreOf(was, data, i);
        Byte(c, from);
        FromTwo(before, Lines(data[..i]), Completed(Rest(data[..i]), c), from);
      }
      assert data[..|data|] == data;
      LinesOfTwo(was, data);
    }

    /** Each packet is checked as its own lines, under its own sender. */
    method Packet(data: string, from: string)
      requires Valid() && Rest(stream) == "" && data != ""
      modifies this
      ensures Valid() && Rest(stream) == "" && stream == old(stream) + Ended(data)
      ensures checked == old(checked) + From(Lines(Ended(data)), from)
      ensures stream == old(stream) + if data[|data| - 1] == '\n' then data else data + "\n"
    {
      EndedIsComplete(data);
      ScanLines(Ended(data), from);
    }
  }

  lemma OneMoreOf(was: string, data: string, i: nat)
    requires i < |data| && Rest(was) == ""
    ensures was + data[..i] + [data[i]] == was + data[..i + 1]
    ensures Rest(was + data[..i]) == Rest(data[..i])
    ensures Lines(data[..i + 1]) == Lines(data[..i]) + Completed(Rest(data[..i]), data[i])
  {
    var done := data[..i];
    assert done + [data[i]] == data[..i + 1];
    Assoc(was, done, [data[i]]);
    LinesOfTwo(was, done);
    OneMoreByte(done, data[i]);
  }

  lemma FromTwo(before: seq<Check>, a: seq<string>, b: seq<string>, from: string)
    ensures before + From(a, from) + From(b, from) == before + From(a + b, from)
  {
    assert From(a + b, from) == From(a, from) + From(b, from);
  }
}
