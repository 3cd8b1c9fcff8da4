/** Ethernet frames as the module builds and takes apart (header layout as in Clause 3 of IEEE 802.3). */
module Frames {
  import opened Words
  import opened Bytes

  const ETH_ALEN := 6
  const ETH_DATA_LEN := 1500

  const ETH_P_NC := 0x9009

  type Mac = m: Data | |m| == 6 witness [0, 0, 0, 0, 0, 0]

  /** A buffer long enough to hold a header. */
  type Frame = f: Data | |f| >= 14 witness seq(14, _ => 0)

  /** The header bytes that `alloc_skb` leaves unset until SEND. */
  type Junk = d: Data | |d| == 12 witness seq(12, _ => 0)

  const BROADCAST: Mac := [0xFF, 0xFF, 0xFF, 0xFF, 0xFF, 0xFF]

  function Dest(f: Frame): Mac { f[..6] }

  function Src(f: Frame): Mac { f[6..12] }

  function Proto(f: Frame): u16 { (f[12] as int) * 256 + f[13] }

  function Payload(f: Frame): Data { f[14..] }

  /** CREATE: payload and protocol are in place, the addresses are not. */
  function Assemble(junk: Junk, payload: Data): (f: Frame)
    ensures Payload(f) == payload && Proto(f) == ETH_P_NC
  {
    junk + [0x90, 0x09] + payload
  }

  /** SEND: the addresses are written into the header. */
  function Address(f: Frame, dest: Mac, src: Mac): (g: Frame)
    ensures Dest(g) == dest && Src(g) == src && Proto(g) == Proto(f) && Payload(g) == Payload(f)
  {
    var g := dest + src + f[12..];
    assert g[..6] == dest && g[6..12] == src && g[12..] == f[12..];
    g
  }

  /** `nc_rcvmsg` reads at most `sizeof(nc_msg->value)` bytes of the frame. */
  function Truncate(f: Frame): (g: Frame)
    ensures |g| <= ETH_DATA_LEN
    ensures Src(g) == Src(f) && Proto(g) == Proto(f)
    ensures Payload(g) == if |Payload(f)| <= 1486 then Payload(f) else Payload(f)[..1486]
  {
    if |f| <= ETH_DATA_LEN then f
    else
      var g: Frame := f[..ETH_DATA_LEN];
      assert g[6..12] == f[6..12];
      g
  }

  /** The receive thread keeps a frame when protocol and source address are right. */
  predicate Accepts(mac: Mac, f: Frame) {
    Proto(f) == ETH_P_NC && Src(f) == mac
  }
}
