/** Which lines of a session description decide where the media goes. */
module SipMedia {
  import opened Wrappers
  import opened Strings
  import opened Sip

  /** A connection line with an address. */
  predicate IsAddress(line: string) { "c=IN" <= Trim(Rust, line) && |Words(Rust, Trim(Rust, line))| >= 3 }

  /** Its third word. */
  function AddressIn(line: string): (a: string)
    requires IsAddress(line)
  {
    Words(Rust, Trim(Rust, line))[2]
  }

  predicate IsAudio(line: string) { "m=audio" <= Trim(Rust, line) }

  /** The second word of an audio line, if it is a port. */
  function PortIn(line: string): (r: Option<nat>) {
    var ws := Words(Rust, Trim(Rust, line));
    if |ws| >= 2 then ParseU16(ws[1]) else None
  }

  /** The last line of that kind. */
  function LastOf(kind: string -> bool, lines: seq<string>): (r: Option<nat>)
    ensures r.Some? ==> r.value < |lines| && kind(lines[r.value])
    ensures r.Some? ==> forall j :: r.value < j < |lines| ==> !kind(lines[j])
    ensures r.None? ==> forall j :: 0 <= j < |lines| ==> !kind(lines[j])
  {
    if lines == [] then None
    else if kind(lines[|lines| - 1]) then Some(|lines| - 1)
    else LastOf(kind, lines[..|lines| - 1])
  }

  /** Every address can be read. */
  predicate AllReadable<Ip>(lines: seq<string>, parseIp: string -> Option<Ip>) {
    forall i :: 0 <= i < |lines| && IsAddress(lines[i]) ==> parseIp(AddressIn(lines[i])).Some?
  }

  lemma {:induction false} ScanSnoc<Ip>(lines: seq<string>, line: string, parseIp: string -> Option<Ip>, host: Ip,
                                        port: Option<nat>)
    ensures ScanMedia(lines + [line], parseIp, host, port) ==
            match ScanMedia(lines, parseIp, host, port)
            case None => None
            case Some((h, p)) => ScanMedia([line], parseIp, h, p)
    decreases |lines|
  {
    var all := lines + [line];
    if lines == [] {
      assert all == [line];
    } else {
      assert all[0] == lines[0] && all[1..] == lines[1..] + [line];
      var t := Trim(Rust, lines[0]);
      if "c=IN" <= t {
        var parts := Words(Rust, t);
        if |parts| < 3 {
          ScanSnoc(lines[1..], line, parseIp, host, port);
        } else if parseIp(parts[2]).Some? {
          ScanSnoc(lines[1..], line, parseIp, parseIp(parts[2]).value, port);
        }
      } else if "m=audio" <= t {
        ScanSnoc(lines[1..], line, parseIp, host, AudioPort(t));
      } else {
        ScanSnoc(lines[1..], line, parseIp, host, port);
      }
    }
  }

  lemma ScanOne<Ip>(line: string, parseIp: string -> Option<Ip>, host: Ip, port: Option<nat>)
    ensures ScanMedia([line], parseIp, host, port) ==
            if IsAddress(line) then
              match parseIp(AddressIn(line)) case None => None case Some(ip) => Some((ip, port))
            else Some((host, if IsAudio(line) then PortIn(line) else port))
  {
    assert [line][1..] == [];
    NotBoth(line);
  }

  lemma NotBoth(line: string)
    ensures !("c=IN" <= Trim(Rust, line) && IsAudio(line))
  {
    var t := Trim(Rust, line);
    if "c=IN" <= t { assert t[0] == 'c'; }
    if "m=audio" <= t { assert t[0] == 'm'; }
  }

  /**
    The scan fails exactly when some address cannot be read; otherwise the last address and the last audio
    line decide, whatever comes before or between them.
   */
  lemma {:induction false} LastLinesDecide<Ip>(lines: seq<string>, parseIp: string -> Option<Ip>, host: Ip)
    ensures var r := ScanMedia(lines, parseIp, host, None);
            var c, m := LastOf(IsAddress, lines), LastOf(IsAudio, lines);
            && (r.Some? <==> AllReadable(lines, parseIp))
            && (r.Some? ==>
                  && r.value.0 == (if c.Some? then parseIp(AddressIn(lines[c.value])).value else host)
                  && r.value.1 == (if m.Some? then PortIn(lines[m.value]) else None))
    decreases |lines|
  {
    if lines != [] {
      var n := |lines| - 1;
      var init, last := lines[..n], lines[n];
      assert lines == init + [last];
      LastLinesDecide(init, parseIp, host);
      ScanSnoc(init, last, parseIp, host, None);
      var r := ScanMedia(init, parseIp, host, None);
      if r.Some? { ScanOne(last, parseIp, r.value.0, r.value.1); }
      ReadableSnoc(init, last, parseIp);
      NotBoth(last);
    }
  }

  lemma ReadableSnoc<Ip>(init: seq<string>, last: string, parseIp: string -> Option<Ip>)
    ensures AllReadable(init + [last], parseIp) <==>
            AllReadable(init, parseIp) && (IsAddress(last) ==> parseIp(AddressIn(last)).Some?)
  {
    var lines := init + [last];
    assert lines[|init|] == last;
    if AllReadable(lines, parseIp) {
      forall i | 0 <= i < |init| && IsAddress(init[i]) ensures parseIp(AddressIn(init[i])).Some? {
        assert lines[i] == init[i];
      }
    }
  }
}
