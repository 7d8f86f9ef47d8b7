/** Assembly of the IPv4/UDP packet: rawClient2 fills separate structs and copies them into a
    packet, rawClient3 writes the headers in place inside one frame buffer. In both, the IP header
    and the UDP block verify at a receiver, which checksums them with the check words included. */
module Packet {
  import opened Checksum
  import opened Options

  const ETH_HEADER: int := 14
  const IP_HEADER: int := 20
  const UDP_HEADER: int := 8
  const PSEUDO_HEADER: int := 12
  const BUFFER: int := 1024
  const IPPROTO_UDP: byte := 17

  type address = a: seq<byte> | |a| == 4 witness [0, 0, 0, 0]
  type mac = a: seq<byte> | |a| == 6 witness [0, 0, 0, 0, 0, 0]

  /** What `htons` leaves in memory: the high byte first. */
  function Network(w: word): (s: seq<byte>)
    ensures |s| == 2
  {
    [w / 0x100, w % 0x100]
  }

  /** The IPv4 header with a zero check word, section 3.1 of RFC 791. */
  function IpHeader(length: word, ttl: byte, source: address, dest: address): (h: seq<byte>)
    ensures |h| == IP_HEADER && h[10] == h[11] == 0
  {
    [0x45, 0] + Network(length) + Network(54321) + [0, 0, ttl, IPPROTO_UDP, 0, 0] + source + dest
  }

  /** The UDP header with a zero check word, RFC 768. */
  function UdpHeader(source: word, dest: word, length: word): (h: seq<byte>)
    ensures |h| == UDP_HEADER && h[6] == h[7] == 0
  {
    Network(source) + Network(dest) + Network(length) + [0, 0]
  }

  /** The pseudo-header that RFC 768 puts before the UDP header for the checksum. */
  function PseudoHeader(source: address, dest: address, udpLength: word): (h: seq<byte>)
    ensures |h| == PSEUDO_HEADER
  {
    source + dest + [0, IPPROTO_UDP] + Network(udpLength)
  }

  /** A header that carries the RFC 1071 checksum of itself in its check word. */
  function Sealed(header: seq<byte>, k: nat): (h: seq<byte>)
    requires k % 2 == 0 && k + 1 < |header| && header[k] == header[k + 1] == 0
    ensures |h| == |header| && Reference(h) == 0
  {
    SelfVerifying(header, k);
    Store(header, k, Reference(header))
  }

  /** The UDP header and data as they are sent: the check word covers the pseudo-header too. */
  function SealedUdp(pseudo: seq<byte>, udp: seq<byte>, data: seq<byte>): (block: seq<byte>)
    requires |pseudo| == PSEUDO_HEADER && |udp| == UDP_HEADER && udp[6] == udp[7] == 0
    ensures |block| == UDP_HEADER + |data|
    ensures Reference(pseudo + block) == 0
  {
    var pseudogram := pseudo + udp + data;
    var c := Reference(pseudogram);
    SelfVerifying(pseudogram, PSEUDO_HEADER + 6);
    assert Store(pseudogram, PSEUDO_HEADER + 6, c) == pseudo + (Store(udp, 6, c) + data);
    Store(udp, 6, c) + data
  }

  // ---- What a receiver sees ------------------------------------------------------------

  datatype Datagram = Datagram(source: address, dest: address, sourcePort: word, destPort: word, data: seq<byte>)

  /** A 16-bit field in network byte order. */
  function ReadWord(p: seq<byte>, k: nat): word
    requires k + 1 < |p|
  {
    Pair(p[k + 1], p[k])
  }

  /** More fragments follow, or this is not the first one: all of the flags and offset field but its two
      upper bits, section 3.1 of RFC 791. */
  predicate IsFragment(p: seq<byte>)
    requires |p| >= IP_HEADER
  {
    p[6] % 0x40 != 0 || p[7] != 0
  }

  /** The receiver of section 3.1 of RFC 791 and of RFC 768 for packets without options; it does not put
      fragments together. Both checksums are taken with the check words included, and a zero UDP check
      word means none. */
  function Receive(p: seq<byte>): Option<Datagram> {
    if |p| < IP_HEADER + UDP_HEADER || p[0] != 0x45 || IsFragment(p) || p[9] != IPPROTO_UDP then None
    else if Reference(p[..IP_HEADER]) != 0 then None
    else
      var total := ReadWord(p, 2);
      if total < IP_HEADER + UDP_HEADER || total > |p| || ReadWord(p, 24) != total - IP_HEADER then
        None
      else
        var pseudo := p[12..20] + [0, IPPROTO_UDP] + p[24..26];
        if ReadWord(p, 26) != 0 && Reference(pseudo + p[IP_HEADER..total]) != 0 then
          None
        else
          Some(Datagram(p[12..16], p[16..20], ReadWord(p, 20), ReadWord(p, 22), p[IP_HEADER + UDP_HEADER..total]))
  }

  lemma IpFields(length: word, ttl: byte, source: address, dest: address)
    ensures var h := Sealed(IpHeader(length, ttl, source, dest), 10);
            && h[..10] == [0x45, 0, length / 0x100, length % 0x100, 0xD4, 0x31, 0, 0, ttl, 17]
            && ReadWord(h, 2) == length && h[12..16] == source && h[16..20] == dest
  {
  }

  lemma UdpFields(pseudo: seq<byte>, source: word, dest: word, length: word, data: seq<byte>)
    requires |pseudo| == PSEUDO_HEADER
    ensures var b := SealedUdp(pseudo, UdpHeader(source, dest, length), data);
            && b[..6] == [source / 0x100, source % 0x100, dest / 0x100, dest % 0x100, length / 0x100, length % 0x100]
            && b[4..6] == Network(length) && b[UDP_HEADER..] == data
  {
  }

  /** A block of bytes that starts with a packet as the two programs build it. */
  ghost predicate Carries(p: seq<byte>, d: Datagram, ttl: byte) {
    var udpLength := UDP_HEADER + |d.data|;
    && IP_HEADER + udpLength < 0x1_0000 && IP_HEADER + udpLength <= |p|
    && p[..IP_HEADER] == Sealed(IpHeader(IP_HEADER + udpLength, ttl, d.source, d.dest), 10)
    && p[IP_HEADER..IP_HEADER + udpLength]
       == SealedUdp(PseudoHeader(d.source, d.dest, udpLength), UdpHeader(d.sourcePort, d.destPort, udpLength), d.data)
  }

  /** All bytes of such a packet but the two check words: version 4 with a header of five 32-bit words, no
      type of service, the total length, the identification 54321, no fragment, ttl, protocol 17 and the
      addresses; then the ports, the length and the data. */
  ghost predicate Octets(p: seq<byte>, d: Datagram, ttl: byte) {
    var n := 28 + |d.data|;
    && n < 0x1_0000 && n <= |p|
    && p[..10] == [0x45, 0, n / 0x100, n % 0x100, 0xD4, 0x31, 0, 0, ttl, 17]
    && p[12..16] == d.source && p[16..20] == d.dest
    && p[20..26] == [d.sourcePort / 0x100, d.sourcePort % 0x100, d.destPort / 0x100, d.destPort % 0x100,
                     (n - 20) / 0x100, (n - 20) % 0x100]
    && p[28..n] == d.data
  }

  lemma CarriesOctets(p: seq<byte>, d: Datagram, ttl: byte)
    requires Carries(p, d, ttl)
    ensures Octets(p, d, ttl)
  {
    var udpLength := UDP_HEADER + |d.data|;
    var header, block := p[..IP_HEADER], p[IP_HEADER..IP_HEADER + udpLength];
    IpFields(IP_HEADER + udpLength, ttl, d.source, d.dest);
    UdpFields(PseudoHeader(d.source, d.dest, udpLength), d.sourcePort, d.destPort, udpLength, d.data);
    assert p[..10] == header[..10] && p[12..16] == header[12..16] && p[16..20] == header[16..20];
    assert p[20..26] == block[..6] && p[28..28 + |d.data|] == block[UDP_HEADER..];
  }

  lemma WordRead(p: seq<byte>, k: nat, w: word)
    requires k + 1 < |p| && p[k] == w / 0x100 && p[k + 1] == w % 0x100
    ensures ReadWord(p, k) == w
  {
  }

  lemma HeadRead(p: seq<byte>, n: word, ttl: byte)
    requires |p| >= IP_HEADER && p[..10] == [0x45, 0, n / 0x100, n % 0x100, 0xD4, 0x31, 0, 0, ttl, 17]
    ensures p[0] == 0x45 && !IsFragment(p) && p[9] == IPPROTO_UDP && ReadWord(p, 2) == n
  {
    var head := p[..10];
    assert forall k :: 0 <= k < 10 ==> p[k] == head[k];
    WordRead(p, 2, n);
  }

  lemma UdpHeadRead(p: seq<byte>, source: word, dest: word, n: word)
    requires |p| >= 26
    requires p[20..26] == [source / 0x100, source % 0x100, dest / 0x100, dest % 0x100, n / 0x100, n % 0x100]
    ensures ReadWord(p, 20) == source && ReadWord(p, 22) == dest && ReadWord(p, 24) == n
    ensures p[24..26] == Network(n)
  {
    var head := p[20..26];
    assert forall k :: 0 <= k < 6 ==> p[20 + k] == head[k];
    WordRead(p, 20, source);
    WordRead(p, 22, dest);
    WordRead(p, 24, n);
  }

  /** Round trip: the receiver accepts the packet and reads the addresses, ports and data that were put in. */
  lemma Received(p: seq<byte>, d: Datagram, ttl: byte)
    requires Carries(p, d, ttl)
    ensures Receive(p) == Some(d)
  {
    var n := 28 + |d.data|;
    CarriesOctets(p, d, ttl);
    HeadRead(p, n, ttl);
    UdpHeadRead(p, d.sourcePort, d.destPort, n - 20);
    assert p[12..20] == d.source + d.dest;
    assert p[12..20] + [0, IPPROTO_UDP] + p[24..26] == PseudoHeader(d.source, d.dest, UDP_HEADER + |d.data|);
  }

  // ---- The C code ---------------------------------------------------------------------------

  /** `memcpy` of t into the buffer. */
  method Copy(buf: array<byte>, at: nat, t: seq<byte>)
    requires at + |t| <= buf.Length
    modifies buf
    ensures buf[at..at + |t|] == t
    ensures forall k :: 0 <= k < at || at + |t| <= k < buf.Length ==> buf[k] == old(buf[k])
  {
    for i := 0 to |t|
      invariant forall k :: 0 <= k < i ==> buf[at + k] == t[k]
      invariant forall k :: 0 <= k < at || at + |t| <= k < buf.Length ==> buf[k] == old(buf[k])
    {
      buf[at + i] := t[i];
    }
  }

  /** Checksums the header at position `at` and stores the result through its `uint16_t` check field. */
  method SealHeader(buf: array<byte>, at: nat, length: nat, k: nat) returns (c: word)
    requires at + length <= buf.Length && length <= INT_MAX && k + 1 < length
    modifies buf
    ensures c == Reference(old(buf[at..at + length]))
    ensures buf[at..at + length] == Store(old(buf[at..at + length]), k, c)
    ensures forall i :: 0 <= i < at || at + length <= i < buf.Length ==> buf[i] == old(buf[i])
  {
    assert Covered(buf, at, length) == buf[at..at + length];
    c := LoopChecksum(buf, at, length);
    buf[at + k] := c % 0x100;
    buf[at + k + 1] := c / 0x100;
  }

  /** The checksum of the pseudogram: pseudo-header, UDP header and data in one temporary block. */
  method UdpChecksum(pseudo: seq<byte>, udp: seq<byte>, data: seq<byte>) returns (c: word)
    requires |pseudo| + |udp| + |data| <= INT_MAX
    ensures c == Reference(pseudo + udp + data)
  {
    var pseudogram := new byte[|pseudo| + |udp| + |data|];
    Copy(pseudogram, 0, pseudo);
    Copy(pseudogram, |pseudo|, udp);
    assert pseudogram[..|pseudo|] == pseudo;
    Copy(pseudogram, |pseudo| + |udp|, data);
    assert pseudogram[|pseudo|..|pseudo| + |udp|] == udp;
    assert pseudogram[..|pseudo|] == pseudo;
    assert Covered(pseudogram, 0, pseudogram.Length) == pseudo + udp + data;
    c := LoopChecksum(pseudogram, 0, pseudogram.Length);
  }

  method FromSeq(s: seq<byte>) returns (a: array<byte>)
    ensures fresh(a) && a[..] == s
  {
    a := new byte[|s|](i requires 0 <= i < |s| => s[i]);
  }

  /** The steps of rawClient2 on given header bytes: separate headers, then one 1024-byte packet. */
  method Assemble(ip0: seq<byte>, pseudo: seq<byte>, udp0: seq<byte>, data: seq<byte>)
    returns (packet: array<byte>, ipCheck: word, udpCheck: word)
    requires |ip0| == IP_HEADER && |udp0| == UDP_HEADER && |pseudo| == PSEUDO_HEADER
    requires IP_HEADER + UDP_HEADER + |data| <= BUFFER
    ensures fresh(packet) && packet.Length == BUFFER
    ensures ipCheck == Reference(ip0) && packet[..IP_HEADER] == Store(ip0, 10, ipCheck)
    ensures udpCheck == Reference(pseudo + udp0 + data)
    ensures packet[IP_HEADER..IP_HEADER + UDP_HEADER] == Store(udp0, 6, udpCheck)
    ensures packet[IP_HEADER + UDP_HEADER..IP_HEADER + UDP_HEADER + |data|] == data
    ensures forall k :: IP_HEADER + UDP_HEADER + |data| <= k < BUFFER ==> packet[k] == 0
  {
    var ip := FromSeq(ip0);
    assert ip[0..IP_HEADER] == ip0;
    ipCheck := SealHeader(ip, 0, IP_HEADER, 10);
    udpCheck := UdpChecksum(pseudo, udp0, data);
    packet := new byte[BUFFER](_ => 0);
    Copy(packet, 0, ip[0..IP_HEADER]);
    Copy(packet, IP_HEADER, Store(udp0, 6, udpCheck));
    assert packet[..IP_HEADER] == ip[0..IP_HEADER];
    Copy(packet, IP_HEADER + UDP_HEADER, data);
    assert packet[..IP_HEADER] == ip[0..IP_HEADER];
  }

  /** The packet of rawClient2. */
  method BuildPacket(source: address, dest: address, sourcePort: word, destPort: word, data: seq<byte>)
    returns (packet: array<byte>)
    requires IP_HEADER + UDP_HEADER + |data| <= BUFFER
    ensures fresh(packet) && packet.Length == 1024
    ensures Carries(packet[..], Datagram(source, dest, sourcePort, destPort, data), 255)
    ensures Octets(packet[..], Datagram(source, dest, sourcePort, destPort, data), 255)
    ensures Receive(packet[..]) == Some(Datagram(source, dest, sourcePort, destPort, data))
    ensures forall k :: 28 + |data| <= k < 1024 ==> packet[k] == 0
  {
    var udpLength := UDP_HEADER + |data|;
    var ipCheck, udpCheck;
    packet, ipCheck, udpCheck :=
      Assemble(IpHeader(IP_HEADER + udpLength, 255, source, dest), PseudoHeader(source, dest, udpLength),
               UdpHeader(sourcePort, destPort, udpLength), data);
    assert packet[..][IP_HEADER..IP_HEADER + udpLength]
        == packet[IP_HEADER..IP_HEADER + UDP_HEADER] + packet[IP_HEADER + UDP_HEADER..IP_HEADER + udpLength];
    assert packet[..][..IP_HEADER] == packet[..IP_HEADER];
    CarriesOctets(packet[..], Datagram(source, dest, sourcePort, destPort, data), 255);
    Received(packet[..], Datagram(source, dest, sourcePort, destPort, data), 255);
  }

  /** The UDP header, the data with its terminator, and then the check word. */
  method WriteUdp(buffer: array<byte>, at: nat, pseudo: seq<byte>, udp0: seq<byte>, data: seq<byte>)
    returns (udpCheck: word)
    requires |udp0| == UDP_HEADER && |pseudo| == PSEUDO_HEADER && at + UDP_HEADER + |data| < buffer.Length == BUFFER
    modifies buffer
    ensures udpCheck == Reference(pseudo + udp0 + data)
    ensures buffer[at..at + UDP_HEADER] == Store(udp0, 6, udpCheck)
    ensures buffer[at + UDP_HEADER..at + UDP_HEADER + |data|] == data && buffer[at + UDP_HEADER + |data|] == 0
    ensures forall k :: 0 <= k < at || at + UDP_HEADER + |data| < k < BUFFER ==> buffer[k] == old(buffer[k])
  {
    var dataAt := at + UDP_HEADER;
    Copy(buffer, at, udp0);
    Copy(buffer, dataAt, data + [0]);
    assert buffer[at..dataAt] == udp0;
    assert buffer[dataAt..dataAt + |data| + 1][|data|] == 0;
    assert buffer[dataAt..dataAt + |data|] == buffer[dataAt..dataAt + |data| + 1][..|data|] == data;
    udpCheck := UdpChecksum(pseudo, buffer[at..dataAt], buffer[dataAt..dataAt + |data|]);
    buffer[at + 6], buffer[at + 7] := udpCheck % 0x100, udpCheck / 0x100;
  }

  /** The steps of rawClient3 on given header bytes, in place inside one frame buffer. */
  method WriteFrame(buffer: array<byte>, eth: seq<byte>, ip0: seq<byte>, pseudo: seq<byte>, udp0: seq<byte>,
                    data: seq<byte>) returns (ipCheck: word, udpCheck: word)
    requires |eth| == ETH_HEADER && |ip0| == IP_HEADER && |udp0| == UDP_HEADER && |pseudo| == PSEUDO_HEADER
    requires ETH_HEADER + IP_HEADER + UDP_HEADER + |data| < buffer.Length == BUFFER
    modifies buffer
    ensures buffer[..ETH_HEADER] == eth
    ensures ipCheck == Reference(ip0) && buffer[ETH_HEADER..ETH_HEADER + IP_HEADER] == Store(ip0, 10, ipCheck)
    ensures udpCheck == Reference(pseudo + udp0 + data)
    ensures buffer[ETH_HEADER + IP_HEADER..ETH_HEADER + IP_HEADER + UDP_HEADER] == Store(udp0, 6, udpCheck)
    ensures var dataAt := ETH_HEADER + IP_HEADER + UDP_HEADER;
            && buffer[dataAt..dataAt + |data|] == data
            && buffer[dataAt + |data|] == 0
            && forall k :: dataAt + |data| < k < BUFFER ==> buffer[k] == old(buffer[k])
  {
    Copy(buffer, 0, eth);
    Copy(buffer, ETH_HEADER, ip0);
    assert buffer[..ETH_HEADER] == eth;
    ipCheck := SealHeader(buffer, ETH_HEADER, IP_HEADER, 10);
    ghost var front := buffer[..ETH_HEADER + IP_HEADER];
    assert front[..ETH_HEADER] == eth && front[ETH_HEADER..] == Store(ip0, 10, ipCheck);
    udpCheck := WriteUdp(buffer, ETH_HEADER + IP_HEADER, pseudo, udp0, data);
    assert buffer[..ETH_HEADER + IP_HEADER] == front;
    assert buffer[..ETH_HEADER] == front[..ETH_HEADER];
    assert buffer[ETH_HEADER..ETH_HEADER + IP_HEADER] == front[ETH_HEADER..];
  }

  /** The packet behind an Ethernet header. */
  lemma FrameCarries(frame: seq<byte>, d: Datagram, ttl: byte)
    requires |frame| == BUFFER && ETH_HEADER + IP_HEADER + UDP_HEADER + |d.data| <= BUFFER
    requires var udpLength := UDP_HEADER + |d.data|;
             var ip := Sealed(IpHeader(IP_HEADER + udpLength, ttl, d.source, d.dest), 10);
             var udp := SealedUdp(PseudoHeader(d.source, d.dest, udpLength),
                                  UdpHeader(d.sourcePort, d.destPort, udpLength), d.data);
             && frame[ETH_HEADER..ETH_HEADER + IP_HEADER] == ip
             && frame[ETH_HEADER + IP_HEADER..ETH_HEADER + IP_HEADER + udpLength] == udp
    ensures Carries(frame[ETH_HEADER..], d, ttl) && Octets(frame[ETH_HEADER..], d, ttl)
    ensures Receive(frame[ETH_HEADER..]) == Some(d)
  {
    var packet, udpLength := frame[ETH_HEADER..], UDP_HEADER + |d.data|;
    assert packet[..IP_HEADER] == frame[ETH_HEADER..ETH_HEADER + IP_HEADER];
    assert packet[IP_HEADER..IP_HEADER + udpLength]
        == frame[ETH_HEADER + IP_HEADER..ETH_HEADER + IP_HEADER + udpLength];
    CarriesOctets(packet, d, ttl);
    Received(packet, d, ttl);
  }

  /** The frame of rawClient3; the bytes behind the terminator that `strcpy` writes stay as they were. */
  method FillFrame(buffer: array<byte>, sourceMac: mac, destMac: mac, source: address, dest: address,
                   port: word, data: seq<byte>)
    requires ETH_HEADER + IP_HEADER + UDP_HEADER + |data| < buffer.Length == BUFFER
    modifies buffer
    ensures buffer[..14] == destMac + sourceMac + [0x08, 0x00]
    ensures Carries(buffer[14..], Datagram(source, dest, port, port, data), 64)
    ensures Octets(buffer[14..], Datagram(source, dest, port, port, data), 64)
    ensures Receive(buffer[14..]) == Some(Datagram(source, dest, port, port, data))
    ensures var end := 42 + |data|;
            buffer[end] == 0 && forall k :: end < k < 1024 ==> buffer[k] == old(buffer[k])
  {
    var udpLength := UDP_HEADER + |data|;
    var ipCheck, udpCheck :=
      WriteFrame(buffer, destMac + sourceMac + Network(0x0800), IpHeader(IP_HEADER + udpLength, 64, source, dest),
                 PseudoHeader(source, dest, udpLength), UdpHeader(port, port, udpLength), data);
    var udpAt := ETH_HEADER + IP_HEADER;
    ghost var frame := buffer[..];
    assert frame[ETH_HEADER..udpAt] == buffer[ETH_HEADER..udpAt];
    assert frame[udpAt..udpAt + udpLength]
        == buffer[udpAt..udpAt + UDP_HEADER] + buffer[udpAt + UDP_HEADER..udpAt + udpLength];
    FrameCarries(buffer[..], Datagram(source, dest, port, port, data), 64);
    assert buffer[..][ETH_HEADER..] == buffer[ETH_HEADER..];
    assert Network(0x0800) == [0x08, 0x00];
  }

  lemma ZeroReferenceIff(block: seq<byte>)
    ensures Reference(block) == 0 <==> Total(Words(block)) > 0 && Total(Words(block)) % 0xFFFF == 0
  {
    OnesSumIsResidue(Words(block));
    FullResidue(Total(Words(block)));
  }

  /** RFC 768 wants a computed check word of zero sent as 0xFFFF, because zero says that there is no
      checksum. The code sends zero, and it does so exactly for blocks whose words sum to a positive
      multiple of 0xFFFF. */
  lemma ZeroUdpCheckIff(pseudo: seq<byte>, udp: seq<byte>, data: seq<byte>)
    requires |pseudo| == PSEUDO_HEADER && |udp| == UDP_HEADER && udp[6] == udp[7] == 0
    ensures var block, sum := SealedUdp(pseudo, udp, data), Total(Words(pseudo + udp + data));
            block[6] == block[7] == 0 <==> sum > 0 && sum % 0xFFFF == 0
  {
    var c := Reference(pseudo + udp + data);
    assert SealedUdp(pseudo, udp, data)[6] == c % 0x100 && SealedUdp(pseudo, udp, data)[7] == c / 0x100;
    ZeroReferenceIff(pseudo + udp + data);
  }

  lemma FullResidue(x: nat)
    ensures Residue(x) == 0xFFFF <==> x > 0 && x % 0xFFFF == 0
  {
    if x > 0 {
      var q, r := x / 0xFFFF, x % 0xFFFF;
      assert x == 0xFFFF * q + r;
      if r == 0 {
        ResidueUnique(x, 0xFFFF, q - 1);
      } else {
        ResidueUnique(x, r, q);
      }
    }
  }

  lemma AddWord(a: byte, b: byte, rest: seq<byte>)
    ensures Total(Words([a, b] + rest)) == Pair(a, b) + Total(Words(rest))
  {
    WordsStep([a, b] + rest);
    assert ([a, b] + rest)[2..] == rest;
  }

  lemma TotalOfTwoWords(a: byte, b: byte, c: byte, d: byte)
    ensures Total(Words([a, b, c, d])) == Pair(a, b) + Pair(c, d)
  {
    AddWord(c, d, []);
    AddWord(a, b, [c, d] + []);
    assert [a, b, c, d] == [a, b] + ([c, d] + []);
  }

  lemma TotalOfBoth(s: seq<byte>, t: seq<byte>)
    requires |s| % 2 == 0
    ensures Total(Words(s + t)) == Total(Words(s)) + Total(Words(t))
  {
    WordsOfConcat(s, t);
    TotalOfConcat(Words(s), Words(t));
  }

  const LOOPBACK: address := [127, 0, 0, 1]
  const SERVER_PORT: word := 12342
  const CLIENT_PORT: word := 12346

  lemma LoopbackPseudoTotal()
    ensures Total(Words(PseudoHeader(LOOPBACK, LOOPBACK, 12))) == 0x1FFE
  {
    var front, back: seq<byte> := [127, 0, 0, 1], [0, 17, 0, 12];
    TotalOfTwoWords(127, 0, 0, 1);
    TotalOfTwoWords(0, 17, 0, 12);
    TotalOfBoth(front, back);
    TotalOfBoth(front, front + back);
    assert PseudoHeader(LOOPBACK, LOOPBACK, 12) == front + (front + back);
  }

  lemma UdpHeaderTotal()
    ensures Total(Words(UdpHeader(CLIENT_PORT, SERVER_PORT, 12))) == 0x7C60
  {
    var front, back: seq<byte> := [0x30, 0x3A, 0x30, 0x36], [0, 12, 0, 0];
    TotalOfTwoWords(0x30, 0x3A, 0x30, 0x36);
    TotalOfTwoWords(0, 12, 0, 0);
    TotalOfBoth(front, back);
    assert UdpHeader(CLIENT_PORT, SERVER_PORT, 12) == front + back;
  }

  /** It happens: with the addresses and ports of rawClient2 and the text "@ aC" the check word that is
      sent is zero. */
  lemma ZeroUdpCheckExample()
    ensures var block := SealedUdp(PseudoHeader(LOOPBACK, LOOPBACK, 12), UdpHeader(CLIENT_PORT, SERVER_PORT, 12),
                                   [0x40, 0x20, 0x61, 0x43]);
            block[6] == block[7] == 0
  {
    var pseudo, udp := PseudoHeader(LOOPBACK, LOOPBACK, 12), UdpHeader(CLIENT_PORT, SERVER_PORT, 12);
    var data: seq<byte> := [0x40, 0x20, 0x61, 0x43];
    LoopbackPseudoTotal();
    UdpHeaderTotal();
    TotalOfTwoWords(0x40, 0x20, 0x61, 0x43);
    TotalOfBoth(udp, data);
    TotalOfBoth(pseudo, udp + data);
    assert pseudo + udp + data == pseudo + (udp + data);
    ZeroUdpCheckIff(pseudo, udp, data);
  }
}
