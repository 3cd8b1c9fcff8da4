/** The parameter file: written by mkparams.py, stored and shown by the sysfs `params` attribute. */
module Params {
  import opened Words
  import opened Bytes
  import opened Frames
  import opened Records

  const IFNAMSIZ := 16
  const PAGE_SIZE := 4096

  /** One entry of the JSON list. */
  datatype Entry = Entry(dev: Data, mac: Mac)

  function Zeros(n: nat): (z: Data)
    ensures |z| == n
  {
    seq(n, _ => 0)
  }

  /** A device name filled up with zero bytes. */
  function Padded(dev: Data): (b: Data)
    requires |dev| <= IFNAMSIZ
    ensures |b| == IFNAMSIZ
  {
    dev + Zeros(IFNAMSIZ - |dev|)
  }

  function Names(entries: seq<Entry>): (b: Data)
    requires forall k :: 0 <= k < |entries| ==> |entries[k].dev| <= IFNAMSIZ
    ensures |b| == IFNAMSIZ * |entries|
  {
    if entries == [] then [] else Padded(entries[0].dev) + Names(entries[1..])
  }

  function Macs(entries: seq<Entry>): (b: Data)
    ensures |b| == ETH_ALEN * |entries|
  {
    if entries == [] then [] else entries[0].mac + Macs(entries[1..])
  }

  lemma {:induction false} NameAt(entries: seq<Entry>, k: nat)
    requires (forall j :: 0 <= j < |entries| ==> |entries[j].dev| <= IFNAMSIZ) && k < |entries|
    ensures Names(entries)[IFNAMSIZ * k..IFNAMSIZ * (k + 1)] == Padded(entries[k].dev)
  {
    var first: Data, rest: Data := Padded(entries[0].dev), Names(entries[1..]);
    if k > 0 {
      NameAt(entries[1..], k - 1);
      assert (first + rest)[IFNAMSIZ * k..IFNAMSIZ * (k + 1)] == rest[IFNAMSIZ * (k - 1)..IFNAMSIZ * k];
    }
  }

  lemma {:induction false} MacAt(entries: seq<Entry>, k: nat)
    requires k < |entries|
    ensures Macs(entries)[ETH_ALEN * k..ETH_ALEN * (k + 1)] == entries[k].mac
  {
    var first: Data, rest: Data := entries[0].mac, Macs(entries[1..]);
    if k > 0 {
      MacAt(entries[1..], k - 1);
      assert (first + rest)[ETH_ALEN * k..ETH_ALEN * (k + 1)] == rest[ETH_ALEN * (k - 1)..ETH_ALEN * k];
    }
  }

  /** The names of the entries in their fields: each at the start of its 16 bytes, zero bytes behind it. */
  ghost predicate HoldsNames(b: Data, entries: seq<Entry>) {
    && |b| == 16 * |entries|
    && forall k :: 0 <= k < |entries| ==>
         var dev := entries[k].dev;
         && |dev| <= 16
         && b[16 * k..16 * k + |dev|] == dev
         && forall j :: 16 * k + |dev| <= j < 16 * (k + 1) ==> b[j] == 0
  }

  /** The addresses of the entries, six bytes each. */
  ghost predicate HoldsMacs(b: Data, entries: seq<Entry>) {
    |b| == 6 * |entries| && forall k :: 0 <= k < |entries| ==> b[6 * k..6 * k + 6] == entries[k].mac
  }

  lemma NamesHeld(entries: seq<Entry>)
    requires forall k :: 0 <= k < |entries| ==> |entries[k].dev| <= IFNAMSIZ
    ensures HoldsNames(Names(entries), entries)
  {
    hide Names, Padded;
    var b := Names(entries);
    forall k | 0 <= k < |entries|
      ensures b[16 * k..16 * k + |entries[k].dev|] == entries[k].dev
      ensures forall j :: 16 * k + |entries[k].dev| <= j < 16 * (k + 1) ==> b[j] == 0
    {
      var dev, field := entries[k].dev, b[16 * k..16 * (k + 1)];
      NameAt(entries, k);
      PaddedBytes(dev);
      assert b[16 * k..16 * k + |dev|] == field[..|dev|];
      forall j | 16 * k + |dev| <= j < 16 * (k + 1)
        ensures b[j] == 0
      {
        assert field[j - 16 * k] == 0;
      }
    }
  }

  lemma PaddedBytes(dev: Data)
    requires |dev| <= IFNAMSIZ
    ensures var b := Padded(dev); b[..|dev|] == dev && forall j :: |dev| <= j < IFNAMSIZ ==> b[j] == 0
  {
  }

  lemma MacsHeld(entries: seq<Entry>)
    ensures HoldsMacs(Macs(entries), entries)
  {
    hide Macs;
    forall k | 0 <= k < |entries|
      ensures Macs(entries)[6 * k..6 * k + 6] == entries[k].mac
    {
      MacAt(entries, k);
    }
  }

  ghost predicate Writable(entries: seq<Entry>) {
    && |entries| < 0x1_0000_0000
    && forall k :: 0 <= k < |entries| ==> |entries[k].dev| <= IFNAMSIZ
  }

  /** The script: the count, then all names, then all addresses. */
  method MakeParams(entries: seq<Entry>) returns (file: Data)
    requires Writable(entries)
    ensures file == ToLittleEndian(|entries|) + Names(entries) + Macs(entries)
    ensures var names := file[4..4 + 16 * |entries|];
      HoldsNames(names, entries) && HoldsMacs(file[4 + 16 * |entries|..], entries)
  {
    hide Padded, ToLittleEndian, HoldsNames, HoldsMacs;
    var head := ToLittleEndian(|entries|);
    var names := WriteNames(entries);
    var macs := WriteMacs(entries);
    file := head + names + macs;
    assert file[4..4 + 16 * |entries|] == names && file[4 + 16 * |entries|..] == macs;
    NamesHeld(entries);
    MacsHeld(entries);
  }

  method WriteNames(entries: seq<Entry>) returns (out: Data)
    requires forall k :: 0 <= k < |entries| ==> |entries[k].dev| <= IFNAMSIZ
    ensures out == Names(entries)
  {
    hide Padded;
    out := [];
    assert entries[0..] == entries;
    for k := 0 to |entries|
      invariant Names(entries) == out + Names(entries[k..])
    {
      assert entries[k..][1..] == entries[k + 1..];
      out := out + Padded(entries[k].dev);
    }
  }

  method WriteMacs(entries: seq<Entry>) returns (out: Data)
    ensures out == Macs(entries)
  {
    out := [];
    assert entries[0..] == entries;
    for k := 0 to |entries|
      invariant Macs(entries) == out + Macs(entries[k..])
    {
      assert entries[k..][1..] == entries[k + 1..];
      out := out + entries[k].mac;
    }
  }

  class Sysfs {
    var running: bool
    var channels: u32
    var netDeviceName: Data
    var channelMac: Data

    ghost predicate Valid()
      reads this
    {
      |netDeviceName| == IFNAMSIZ * channels && |channelMac| == ETH_ALEN * channels
    }

    constructor ()
      ensures Valid() && !running && channels == 0
    {
      running, channels, netDeviceName, channelMac := false, 0, [], [];
    }

    /** Reading the attribute. */
    method Show() returns (buf: Data)
      requires Valid()
      ensures buf == ToLittleEndian(channels) + netDeviceName + channelMac
    {
      buf := ToLittleEndian(channels);
      buf := buf + netDeviceName;
      buf := buf + channelMac;
    }

    /**
     Writing the attribute: `page` is the kernel's buffer, of which the user supplied the first `len`
     bytes.  The file is taken only when stopped, and only when its length fits its count, by a size that
     is computed in 32 bits; where a file is taken, that size must not have overflowed.
     */
    method Store(page: Data, len: nat)
      requires Valid() && |page| == PAGE_SIZE && len <= PAGE_SIZE
      requires var size := (IFNAMSIZ + ETH_ALEN) * FromLittleEndian(page[..4]);
        !running && len == 4 + Wrap32(size) ==> size < 0x1_0000_0000
      modifies this
      ensures Valid() && running == old(running)
      ensures var accepted := !running && len == 4 + (IFNAMSIZ + ETH_ALEN) * FromLittleEndian(page[..4]);
        if accepted then ToLittleEndian(channels) + netDeviceName + channelMac == page[..len]
        else channels == old(channels) && netDeviceName == old(netDeviceName) && channelMac == old(channelMac)
    {
      hide FromLittleEndian, ToLittleEndian;
      if !running {
        var count := FromLittleEndian(page[..4]);
        if len == 4 + Wrap32((IFNAMSIZ + ETH_ALEN) * count) {
          channels := count;
          netDeviceName := page[4..4 + IFNAMSIZ * count];
          channelMac := page[4 + IFNAMSIZ * count..4 + IFNAMSIZ * count + ETH_ALEN * count];
          LittleEndianBytes(page[..4]);
          assert page[..len] == page[..4] + netDeviceName + channelMac;
        }
      }
    }
  }

  /** The concatenation of count, names and addresses can be taken apart in one way only. */
  lemma PartsUnique(n: u32, names: Data, macs: Data, n': u32, names': Data, macs': Data)
    requires |names| == IFNAMSIZ * n && |macs| == ETH_ALEN * n && |names'| == IFNAMSIZ * n' && |macs'| == ETH_ALEN * n'
    requires ToLittleEndian(n) + names + macs == ToLittleEndian(n') + names' + macs'
    ensures n == n' && names == names' && macs == macs'
  {
    var a, b := ToLittleEndian(n) + names + macs, ToLittleEndian(n') + names' + macs';
    assert a[..4] == ToLittleEndian(n) && b[..4] == ToLittleEndian(n');
    LittleEndianRoundTrip(n);
    LittleEndianRoundTrip(n');
    assert a[4..4 + |names|] == names && b[4..4 + |names'|] == names';
    assert a[4 + |names|..] == macs && b[4 + |names'|..] == macs';
  }

  /**
   A file made by the script is accepted by a stopped module, shown again byte for byte, and gives every
   channel the device name and the address of its entry: in the file, behind its count, and in the module
   every name starts its field of 16 bytes and is filled up with zero bytes.
   */
  method StoreThenShow(sysfs: Sysfs, entries: seq<Entry>, page: Data) returns (shown: Data, file: Data)
    requires sysfs.Valid() && !sysfs.running && Writable(entries)
    requires 4 + (IFNAMSIZ + ETH_ALEN) * |entries| <= PAGE_SIZE == |page|
    modifies sysfs
    ensures |file| == 4 + 22 * |entries|
    ensures Number(file[3], file[2], file[1], file[0]) == |entries|
    ensures HoldsNames(file[4..4 + 16 * |entries|], entries) && HoldsMacs(file[4 + 16 * |entries|..], entries)
    ensures shown == file
    ensures sysfs.Valid() && sysfs.channels == |entries|
    ensures HoldsNames(sysfs.netDeviceName, entries) && HoldsMacs(sysfs.channelMac, entries)
  {
    hide HoldsNames, HoldsMacs, Names, Macs;
    file := MakeParams(entries);
    var buf := file + page[|file|..];
    assert buf[..4] == file[..4] == ToLittleEndian(|entries|);
    LittleEndianRoundTrip(|entries|);
    sysfs.Store(buf, |file|);
    assert buf[..|file|] == file;
    PartsUnique(sysfs.channels, sysfs.netDeviceName, sysfs.channelMac, |entries|, Names(entries), Macs(entries));
    assert file[4..4 + 16 * |entries|] == Names(entries) && file[4 + 16 * |entries|..] == Macs(entries);
    NamesHeld(entries);
    MacsHeld(entries);
    shown := sysfs.Show();
  }
}
