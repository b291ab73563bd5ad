/**
 * Auto-adding a discovered printer (`printer_cb`): pick a driver, derive a
 * printer name from the device information, and when that name is taken
 * try " 2" through " 99" appended to it, shortening the name so the
 * result still fits the 128-byte buffer. `papplPrinterCreate` is an
 * oracle: the set of names it refuses.
 */
module PrinterNames {
  import opened Wrappers
  import opened CStrings
  import opened Decimal
  import opened CupsOptions
  import opened Drivers

  /** `sizeof(name)` and `sizeof(newname)`. */
  const NameSize: nat := 128

  /** The first and one past the last number tried. */
  const FirstNumber: nat := 2
  const EndNumber: nat := 100

  /**
   * The name first tried: the device information copied into the 128-byte
   * buffer and cut at the first " (".
   */
  function BaseName(deviceInfo: string): (r: string)
    ensures |r| < NameSize
    ensures |r| <= |deviceInfo| && r == deviceInfo[..|r|]
    ensures forall p :: 0 <= p <= |r| ==> !OccursAt(" (", r, p)
    ensures |r| < |CopyString(deviceInfo, NameSize)| ==> OccursAt(" (", deviceInfo, |r|)
    ensures |r| < |CopyString(deviceInfo, NameSize)| ==> OccursAt(" (", CopyString(deviceInfo, NameSize), |r|)
  {
    var name := CopyString(deviceInfo, NameSize);
    match FindFirst(" (", name)
    case None => name
    case Some(p) =>
      assert forall q :: 0 <= q <= p ==> OccursAt(" (", name[..p], q) ==> OccursAt(" (", name, q);
      assert deviceInfo[p..p + 2] == name[p..p + 2];
      name[..p]
  }

  /**
   * The 128-byte buffer after the copy (the copied name, its NUL, then
   * whatever the buffer held) and after the NUL written over the first
   * " (" holds `BaseName(deviceInfo)` as its C string.
   */
  lemma BaseNameHeld(deviceInfo: string, junk: seq<char>)
    requires NoNul(deviceInfo)
    ensures var name := CopyString(deviceInfo, NameSize);
      var buf := name + [Nul] + junk;
      TakeCString(if FindFirst(" (", name).Some? then buf[FindFirst(" (", name).value := Nul] else buf)
        == BaseName(deviceInfo)
  {
    var name := CopyString(deviceInfo, NameSize);
    var buf := name + [Nul] + junk;
    match FindFirst(" (", name)
    case None =>
      TakeCStringOf(name, junk);
    case Some(p) =>
      var rest := name[p + 1..] + [Nul] + junk;
      assert buf[p := Nul] == name[..p] + [Nul] + rest;
      assert NoNul(name[..p]) by {
        forall k | 0 <= k < p ensures name[..p][k] != Nul {
          assert name[..p][k] == deviceInfo[k];
        }
      }
      TakeCStringOf(name[..p], rest);
  }

  /** Deriving the name again from a derived name changes nothing. */
  lemma BaseNameIdempotent(deviceInfo: string)
    ensures BaseName(BaseName(deviceInfo)) == BaseName(deviceInfo)
  {
    var r := BaseName(deviceInfo);
    assert CopyString(r, NameSize) == r;
    assert FindFirst(" (", r) == None;
  }

  /** `snprintf(number, sizeof(number), " %d", i)`: a blank and the decimal number. */
  function Suffix(i: nat): (s: string)
    requires FirstNumber <= i < EndNumber
    ensures 2 <= |s| <= 3 && s[0] == ' ' && s[1..] == NatToString(i)
  {
    " " + NatToString(i)
  }

  /**
   * The name tried with number `i`: the base name, cut just enough that
   * the suffix fits within the 127 characters the buffer holds.
   */
  function Candidate(name: string, i: nat): (r: string)
    requires |name| < NameSize && FirstNumber <= i < EndNumber
    ensures |r| < NameSize
  {
    var number := Suffix(i);
    if |name| + |number| < NameSize then name + number
    else name[..NameSize - 1 - |number|] + number
  }

  /**
   * A numbered name ends with its suffix, and what comes before the suffix
   * is the longest prefix of the base name that leaves room for it.
   */
  lemma CandidateShape(name: string, i: nat)
    requires |name| < NameSize && FirstNumber <= i < EndNumber
    ensures var r, n := Candidate(name, i), |Suffix(i)|;
      && |r| >= n && r[|r| - n..] == Suffix(i)
      && |r| - n <= |name| && r[..|r| - n] == name[..|r| - n]
      && (|r| - n == |name| || |r| == NameSize - 1)
  {
  }

  /** Different numbers give different names, whatever the base. */
  lemma CandidatesDistinct(name: string, i: nat, j: nat)
    requires |name| < NameSize && FirstNumber <= i < EndNumber && FirstNumber <= j < EndNumber
    requires i != j
    ensures Candidate(name, i) != Candidate(name, j)
  {
    var ci, cj := Candidate(name, i), Candidate(name, j);
    var si, sj := Suffix(i), Suffix(j);
    CandidateShape(name, i);
    CandidateShape(name, j);
    if ci == cj && |si| == |sj| {
      assert si == ci[|ci| - |si|..] == sj;
      assert NatToString(i) == si[1..] == sj[1..] == NatToString(j);
      NatToStringInjective(i, j);
    }
  }

  /** `memcpy(dst + off, src, |src|)`. */
  method CopyInto(dst: array<char>, off: nat, src: seq<char>)
    requires off + |src| <= dst.Length
    modifies dst
    ensures forall j :: off <= j < off + |src| ==> dst[j] == src[j - off]
    ensures forall j :: 0 <= j < dst.Length && !(off <= j < off + |src|) ==> dst[j] == old(dst[j])
  {
    for k := 0 to |src|
      invariant forall j :: off <= j < off + k ==> dst[j] == src[j - off]
      invariant forall j :: 0 <= j < dst.Length && !(off <= j < off + k) ==> dst[j] == old(dst[j])
    {
      dst[off + k] := src[k];
    }
  }

  /**
   * Building the numbered name in the `newname` buffer as `printer_cb`
   * does: copy the base name in, then `memcpy` the suffix and its NUL
   * either after the name or over its tail; the result is the C string
   * left in the buffer, whatever an earlier attempt left there.
   */
  method FormatCandidate(buf: array<char>, name: string, i: nat) returns (newname: string)
    requires buf.Length == NameSize
    requires |name| < NameSize && NoNul(name) && FirstNumber <= i < EndNumber
    modifies buf
    ensures newname == Candidate(name, i)
    ensures TakeCString(buf[..]) == newname
  {
    var number := Suffix(i);
    var numberlen := |number|;
    CopyInto(buf, 0, name + [Nul]);
    var at := if |name| + numberlen < NameSize then |name| else NameSize - numberlen - 1;
    CopyInto(buf, at, number + [Nul]);
    assert Candidate(name, i) == name[..at] + number;
    HeldString(buf[..], name, number, at);
    newname := TakeCString(buf[..]);
  }

  /** A buffer holding a prefix of `name`, then `number` and a NUL, holds that C string. */
  lemma HeldString(b: seq<char>, name: string, number: string, at: nat)
    requires NoNul(name) && at <= |name| && at + |number| < |b|
    requires forall k :: 0 <= k < |number| ==> number[k] != Nul
    requires forall k :: 0 <= k < at ==> b[k] == name[k]
    requires forall k :: at <= k <= at + |number| ==> b[k] == (number + [Nul])[k - at]
    ensures TakeCString(b) == name[..at] + number
  {
    var n := at + |number|;
    var c := name[..at] + number;
    assert b[n] == (number + [Nul])[|number|] == Nul;
    forall k | 0 <= k < n
      ensures b[k] == c[k] && b[k] != Nul
    {
      if k < at {
        assert b[k] == name[k] == c[k];
      } else {
        assert b[k] == (number + [Nul])[k - at] == number[k - at] == c[k];
      }
    }
    TakeCStringAt(b, n);
    assert b[..n] == c;
  }

  /** Where the drivers stand for this device: some driver scores above zero. */
  predicate HasDriver(did: seq<Pair>, drivers: seq<Driver>)
  {
    exists j :: 0 <= j < |drivers| && DriverScore(did, drivers[j]) > 0
  }

  /**
   * The names tried from base `name`, stopping at the first one
   * `papplPrinterCreate` accepts (any name not in `taken`): the base name,
   * then the numbered names in order, at most up to " 99"; `created` is
   * the accepted name, if any.
   */
  predicate NamingOutcome(name: string, taken: set<string>, attempts: seq<string>, created: Option<string>)
    requires |name| < NameSize
  {
    && 1 <= |attempts| <= EndNumber - 1
    && attempts[0] == name
    && (forall k :: 1 <= k < |attempts| ==> attempts[k] == Candidate(name, k + 1))
    && (forall k :: 0 <= k < |attempts| - 1 ==> attempts[k] in taken)
    && (created.Some? <==> attempts[|attempts| - 1] !in taken)
    && (created.Some? ==> created.value == attempts[|attempts| - 1])
    && (created.None? ==> |attempts| == EndNumber - 1)
  }

  /** The first `n` names tried from base `name`. */
  function Attempts(name: string, n: nat): (r: seq<string>)
    requires |name| < NameSize && 1 <= n < EndNumber
    ensures |r| == n
  {
    if n == 1 then [name] else Attempts(name, n - 1) + [Candidate(name, n)]
  }

  /** The names tried are the base name followed by the numbered names in order. */
  lemma {:induction false} AttemptsElements(name: string, n: nat)
    requires |name| < NameSize && 1 <= n < EndNumber
    ensures Attempts(name, n)[0] == name
    ensures forall k :: 1 <= k < n ==> Attempts(name, n)[k] == Candidate(name, k + 1)
  {
    if n > 1 {
      AttemptsElements(name, n - 1);
    }
  }

  /** The naming part of `printer_cb`: try the base name, then " 2" to " 99". */
  method CreateWithUniqueName(name: string, taken: set<string>)
    returns (attempts: seq<string>, created: Option<string>)
    requires |name| < NameSize && NoNul(name)
    ensures NamingOutcome(name, taken, attempts, created)
  {
    attempts := [name];
    created := if name in taken then None else Some(name);
    var newbuf := new char[NameSize];
    var i := FirstNumber;
    while i < EndNumber && created.None?
      invariant FirstNumber <= i <= EndNumber
      invariant attempts == Attempts(name, i - 1)
      invariant forall k :: 0 <= k < |attempts| - 1 ==> attempts[k] in taken
      invariant created.Some? <==> attempts[|attempts| - 1] !in taken
      invariant created.Some? ==> created.value == attempts[|attempts| - 1]
    {
      var newname := FormatCandidate(newbuf, name, i);
      attempts := attempts + [newname];
      if newname !in taken {
        created := Some(newname);
      }
      i := i + 1;
    }
    AttemptsElements(name, |attempts|);
  }

  /**
   * `printer_cb`: with no driver nothing is tried; otherwise the name
   * derived from the device information is made unique as above.
   * `attempts` are the names passed to `papplPrinterCreate`.
   */
  method PrinterCb(deviceInfo: string, did: seq<Pair>, drivers: seq<Driver>, taken: set<string>)
    returns (attempts: seq<string>, created: Option<string>)
    requires NoNul(deviceInfo)
    ensures !HasDriver(did, drivers) ==> attempts == [] && created == None
    ensures HasDriver(did, drivers) ==> NamingOutcome(BaseName(deviceInfo), taken, attempts, created)
  {
    var driverName := AutoAdd(did, drivers);
    if driverName.None? {
      return [], None;
    }
    var name := BaseName(deviceInfo);
    assert NoNul(name);
    attempts, created := CreateWithUniqueName(name, taken);
  }

  /** The application's own catalog never selects a driver, so auto-adding creates no printer. */
  method PrinterCbBuiltIn(deviceInfo: string, did: seq<Pair>, taken: set<string>)
    returns (attempts: seq<string>, created: Option<string>)
    requires NoNul(deviceInfo)
    ensures attempts == [] && created == None
  {
    attempts, created := PrinterCb(deviceInfo, did, BrfDrivers, taken);
  }
}
