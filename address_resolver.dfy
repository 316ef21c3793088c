/**
 * IP address discovery for a domain: each poll of the domain's reported
 * addresses is scanned entry by entry, the first lease record of an entry's
 * first value is kept, and polling stops at the first poll that leaves an
 * address behind.
 */
module AddressResolver {
  import opened Hypervisor

  /** Index of the first newline in `s`, or `|s|` when there is none. */
  function NewlineIndex(s: string): (i: nat)
    ensures i <= |s|
    ensures forall j :: 0 <= j < i ==> s[j] != '\n'
    ensures i < |s| ==> s[i] == '\n'
  {
    if s == [] || s[0] == '\n' then 0 else 1 + NewlineIndex(s[1..])
  }

  /** The newline-separated fields of `s`, empty ones included. */
  function Fields(s: string): (f: seq<string>)
    ensures |f| > 0
    ensures forall j, c :: 0 <= j < |f| && 0 <= c < |f[j]| ==> f[j][c] != '\n'
    decreases |s|
  {
    var i := NewlineIndex(s);
    if i == |s| then [s] else [s[..i]] + Fields(s[i + 1..])
  }

  /** Fields with the trailing empty ones removed, as Ruby's split does without a limit. */
  function DropTrailingEmpty(f: seq<string>): (g: seq<string>)
    ensures |g| <= |f| && g == f[..|g|]
    ensures g != [] ==> g[|g| - 1] != ""
    ensures forall j :: |g| <= j < |f| ==> f[j] == ""
  {
    if f == [] then []
    else if f[|f| - 1] == "" then DropTrailingEmpty(f[..|f| - 1])
    else f
  }

  /** Ruby's `s.split("\n")`: newline-free records, the last one never empty. */
  function SplitLines(s: string): (records: seq<string>)
    ensures forall j, c :: 0 <= j < |records| && 0 <= c < |records[j]| ==> records[j][c] != '\n'
    ensures records != [] ==> records[|records| - 1] != ""
  {
    DropTrailingEmpty(Fields(s))
  }

  /** Ruby's `s.split("\n").first`: the most recent lease record, nil when there is none. */
  function FirstRecord(s: string): (r: Option<string>)
    ensures r.Some? ==> forall c :: 0 <= c < |r.value| ==> r.value[c] != '\n'
  {
    var records := SplitLines(s);
    if records == [] then None else Some(records[0])
  }

  predicate OnlyNewlines(s: string)
  {
    forall j :: 0 <= j < |s| ==> s[j] == '\n'
  }

  predicate AllEmpty(f: seq<string>)
  {
    forall j :: 0 <= j < |f| ==> f[j] == ""
  }

  lemma {:induction false} FieldsAllEmpty(s: string)
    ensures AllEmpty(Fields(s)) <==> OnlyNewlines(s)
    decreases |s|
  {
    var i := NewlineIndex(s);
    if i == |s| {
      assert Fields(s) == [s];
      if s != [] {
        assert s[0] != '\n';
        assert Fields(s)[0] != "";
      }
    } else {
      var rest := s[i + 1..];
      assert Fields(s) == [s[..i]] + Fields(rest);
      FieldsAllEmpty(rest);
      if OnlyNewlines(s) {
        assert i == 0;
        forall j | 0 <= j < |rest| ensures rest[j] == '\n' {
          assert rest[j] == s[j + 1];
        }
        forall j | 0 <= j < |Fields(s)| ensures Fields(s)[j] == "" {
          if j > 0 {
            assert Fields(s)[j] == Fields(rest)[j - 1];
          }
        }
      }
      if AllEmpty(Fields(s)) {
        var fs, fr := Fields(s), Fields(rest);
        assert fs[0] == s[..i];
        assert i == 0;
        forall j | 0 <= j < |fr| ensures fr[j] == "" {
          assert fs[j + 1] == fr[j];
        }
        forall j | 0 <= j < |s| ensures s[j] == '\n' {
          if j > 0 {
            assert s[j] == rest[j - 1];
          }
        }
      }
    }
  }

  /**
   * The record kept from a lease value: nothing when the value holds only
   * newlines (the empty string included), otherwise the text before the
   * first newline.
   */
  lemma FirstRecordIsFirstLine(s: string)
    ensures FirstRecord(s).None? <==> OnlyNewlines(s)
    ensures FirstRecord(s).Some? ==> FirstRecord(s).value == s[..NewlineIndex(s)]
  {
    var f := Fields(s);
    var g := DropTrailingEmpty(f);
    FieldsAllEmpty(s);
    if g == [] {
      assert AllEmpty(f);
    } else {
      assert g[0] == f[0];
      assert f[0] == s[..NewlineIndex(s)] by {
        var i := NewlineIndex(s);
        if i < |s| {
          assert f == [s[..i]] + Fields(s[i + 1..]);
        }
      }
      assert f[|g| - 1] != "";
    }
  }

  /** A kept record never spans two leases and is a prefix of the value. */
  lemma FirstRecordIsOneLine(s: string)
    requires FirstRecord(s).Some?
    ensures var r := FirstRecord(s).value;
      |r| <= |s| && r == s[..|r|] && (forall j :: 0 <= j < |r| ==> r[j] != '\n')
  {
    FirstRecordIsFirstLine(s);
  }

  /** A value holding a lease record, a newline and older records yields that first record. */
  lemma FirstOfSeveralLeases(latest: string, older: string)
    requires latest != "" && forall j :: 0 <= j < |latest| ==> latest[j] != '\n'
    ensures FirstRecord(latest + "\n" + older) == Some(latest)
  {
    var s := latest + "\n" + older;
    FirstRecordIsFirstLine(s);
    assert s[|latest|] == '\n';
    assert s[0] == latest[0];
    assert s[..|latest|] == latest;
  }

  /** Two leases in one value: the first (most recent) one is kept. */
  lemma MostRecentLeaseKept()
    ensures FirstRecord("10.0.0.5\n10.0.0.9") == Some("10.0.0.5")
  {
    var latest := "10.0.0.5";
    forall j | 0 <= j < |latest| ensures latest[j] != '\n' {
      assert latest[j] in "10.5.";
    }
    FirstOfSeveralLeases(latest, "10.0.0.9");
    assert latest + "\n" + "10.0.0.9" == "10.0.0.5\n10.0.0.9";
  }

  /** One entry of a poll's address hash: an interface type and its values. */
  datatype AddressEntry = AddressEntry(kind: string, values: seq<Option<string>>)

  /** One poll of the domain's addresses, in the hash's iteration order. */
  type Snapshot = seq<AddressEntry>

  /** `ip[0] != nil`: an empty value list reads as nil in Ruby. */
  predicate HasLease(e: AddressEntry)
  {
    |e.values| > 0 && e.values[0].Some?
  }

  /** The address after visiting one entry: overwritten when the entry has a lease. */
  function EntryAddress(e: AddressEntry, ip: Option<string>): Option<string>
  {
    if HasLease(e) then FirstRecord(e.values[0].value) else ip
  }

  /**
   * The address left after visiting every entry of a poll, starting from
   * `ip`: either `ip` itself or the record of some entry that has a lease.
   */
  function SnapshotAddress(s: Snapshot, ip: Option<string>): (r: Option<string>)
    ensures r == ip || exists j :: 0 <= j < |s| && HasLease(s[j]) && r == FirstRecord(s[j].values[0].value)
    decreases |s|
  {
    if s == [] then ip else EntryAddress(s[|s| - 1], SnapshotAddress(s[..|s| - 1], ip))
  }

  /** When several entries carry a lease, the last one in iteration order decides. */
  lemma {:induction false} LastLeaseWins(s: Snapshot, ip: Option<string>, j: nat)
    requires j < |s| && HasLease(s[j])
    requires forall k :: j < k < |s| ==> !HasLease(s[k])
    ensures SnapshotAddress(s, ip) == FirstRecord(s[j].values[0].value)
    decreases |s|
  {
    if j < |s| - 1 {
      LastLeaseWins(s[..|s| - 1], ip, j);
    }
  }

  /** A poll in which no entry carries a lease leaves the address as it was. */
  lemma {:induction false} NoLeaseKeepsAddress(s: Snapshot, ip: Option<string>)
    requires forall k :: 0 <= k < |s| ==> !HasLease(s[k])
    ensures SnapshotAddress(s, ip) == ip
    decreases |s|
  {
    if s != [] {
      NoLeaseKeepsAddress(s[..|s| - 1], ip);
    }
  }

  /** The `each_pair` loop of one poll, reassigning the address entry by entry. */
  method ScanSnapshot(s: Snapshot, ip0: Option<string>) returns (ip: Option<string>)
    ensures ip == SnapshotAddress(s, ip0)
  {
    ip := ip0;
    var i := 0;
    while i < |s|
      invariant 0 <= i <= |s|
      invariant ip == SnapshotAddress(s[..i], ip0)
    {
      var e := s[i];
      if |e.values| > 0 && e.values[0].Some? {
        ip := FirstRecord(e.values[0].value);
      }
      assert s[..i + 1][..i] == s[..i];
      i := i + 1;
    }
    assert s[..i] == s;
  }

  /**
   * One evaluation of the wait_for block: the domain's address hash, or an
   * exception raised while fetching it (not the wait's own timeout, which is
   * the end of the poll sequence).
   */
  datatype Poll = Answered(entries: Snapshot) | PollFailed(error: DriverError)

  /** The address a poll leaves behind, the address variable being nil when it starts. */
  function PollAddress(p: Poll): Option<string>
  {
    if p.Answered? then SnapshotAddress(p.entries, None) else None
  }

  /** A poll that neither raised nor found an address: the wait goes on. */
  predicate Missed(p: Poll)
  {
    p.Answered? && PollAddress(p).None?
  }

  /**
   * What the bounded wait comes to: the address of the first poll that
   * yields one, the error of a poll that raises before that, or nil when
   * every poll in the window came back empty.
   */
  function FirstAddress(polls: seq<Poll>): (r: Result<Option<string>, DriverError>)
    ensures r.Success? && r.value.Some? ==>
      exists k :: 0 <= k < |polls| && polls[k].Answered? && r.value == PollAddress(polls[k])
    ensures r.Failure? ==> exists k :: 0 <= k < |polls| && polls[k] == PollFailed(r.error)
    decreases |polls|
  {
    if polls == [] then Success(None)
    else if polls[0].PollFailed? then Failure(polls[0].error)
    else if PollAddress(polls[0]).Some? then Success(PollAddress(polls[0]))
    else
      var r := FirstAddress(polls[1..]);
      assert r.Success? && r.value.Some? ==> exists k :: 0 <= k < |polls| && polls[k].Answered? && r.value == PollAddress(polls[k]) by {
        if r.Success? && r.value.Some? {
          var k :| 0 <= k < |polls[1..]| && polls[1..][k].Answered? && r.value == PollAddress(polls[1..][k]);
          assert polls[k + 1] == polls[1..][k];
        }
      }
      assert r.Failure? ==> exists k :: 0 <= k < |polls| && polls[k] == PollFailed(r.error) by {
        if r.Failure? {
          var k :| 0 <= k < |polls[1..]| && polls[1..][k] == PollFailed(r.error);
          assert polls[k + 1] == polls[1..][k];
        }
      }
      r
  }

  /** Polling stops at the first poll that yields an address, and returns that address. */
  lemma {:induction false} FirstAddressIsFirstHit(polls: seq<Poll>, k: nat)
    requires k < |polls| && polls[k].Answered? && PollAddress(polls[k]).Some?
    requires forall j :: 0 <= j < k ==> Missed(polls[j])
    ensures FirstAddress(polls) == Success(PollAddress(polls[k]))
    decreases k
  {
    if k > 0 {
      assert Missed(polls[0]);
      FirstAddressIsFirstHit(polls[1..], k - 1);
    }
  }

  /** An exception raised by a poll before any address turned up leaves the wait. */
  lemma {:induction false} PollErrorPropagates(polls: seq<Poll>, k: nat)
    requires k < |polls| && polls[k].PollFailed?
    requires forall j :: 0 <= j < k ==> Missed(polls[j])
    ensures FirstAddress(polls) == Failure(polls[k].error)
    decreases k
  {
    if k > 0 {
      assert Missed(polls[0]);
      PollErrorPropagates(polls[1..], k - 1);
    }
  }

  /** When no poll within the window yields an address the result is nil, not an error. */
  lemma {:induction false} NoAddressWithinWindow(polls: seq<Poll>)
    requires forall j :: 0 <= j < |polls| ==> Missed(polls[j])
    ensures FirstAddress(polls) == Success(None)
    decreases |polls|
  {
    if polls != [] {
      assert Missed(polls[0]);
      NoAddressWithinWindow(polls[1..]);
    }
  }

  /**
   * `domain.wait_for(2) { ... }` over the polls made before the timeout:
   * every poll rescans the entries, carrying the address variable over, and
   * the wait ends as soon as the address is non-nil. A timeout is not an
   * error: the address is then simply nil. Any other exception a poll raises
   * leaves the wait.
   */
  method WaitForAddress(polls: seq<Poll>) returns (r: Result<Option<string>, DriverError>, used: nat)
    ensures r == FirstAddress(polls)
    ensures used <= |polls|
    ensures r == Success(None) ==> used == |polls|
    ensures r.Success? && r.value.Some? ==> 0 < used && r.value == PollAddress(polls[used - 1])
    ensures r.Failure? ==> 0 < used && polls[used - 1] == PollFailed(r.error)
    ensures forall j :: 0 <= j < used - 1 ==> Missed(polls[j])
  {
    var ip: Option<string> := None;
    used := 0;
    while used < |polls| && ip.None?
      invariant used <= |polls|
      invariant forall j :: 0 <= j < used ==> j < used - 1 || ip.None? ==> Missed(polls[j])
      invariant ip.Some? ==> 0 < used && polls[used - 1].Answered? && ip == PollAddress(polls[used - 1])
      invariant FirstAddress(polls) == (if ip.Some? then Success(ip) else FirstAddress(polls[used..]))
    {
      assert polls[used..][1..] == polls[used + 1..];
      match polls[used]
      case PollFailed(e) =>
        return Failure(e), used + 1;
      case Answered(entries) =>
        ip := ScanSnapshot(entries, ip);
        used := used + 1;
    }
    r := Success(ip);
  }
}
