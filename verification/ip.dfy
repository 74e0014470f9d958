// Addresses, their canonical form, their order and their textual form.
module Ip {
  import opened Base
  import opened Text

  const V4_COUNT := 0x1_0000_0000
  const V6_COUNT := 0x1_0000_0000_0000_0000_0000_0000_0000_0000

  type Bits32 = x: nat | x < V4_COUNT
  type Bits128 = x: nat | x < V6_COUNT

  // The address bits in network order, read as one number.
  datatype IpAddr = V4(bits: Bits32) | V6(wide: Bits128)

  // `::ffff:a.b.c.d` is the IPv4 address a.b.c.d: 80 zero bits, then 16 one
  // bits, then the address.
  predicate IsMapped(ip: IpAddr) {
    ip.V6? && ip.wide / V4_COUNT == 0xFFFF
  }

  function Canonical(ip: IpAddr): IpAddr {
    if IsMapped(ip) then V4(ip.wide % V4_COUNT) else ip
  }

  function Mapped(bits: Bits32): IpAddr {
    V6(0xFFFF * V4_COUNT + bits)
  }

  lemma CanonicalOfMapped(bits: Bits32)
    ensures IsMapped(Mapped(bits)) && Canonical(Mapped(bits)) == V4(bits)
  {
  }

  // The derived order: every IPv4 address before every IPv6 address.
  predicate Less(a: IpAddr, b: IpAddr) {
    match (a, b)
    case (V4(x), V4(y)) => x < y
    case (V6(x), V6(y)) => x < y
    case (V4(_), V6(_)) => true
    case (V6(_), V4(_)) => false
  }

  // The characters `Display` uses for addresses.
  predicate IsAddressChar(c: char) {
    IsDigit(c) || 'a' <= c <= 'f' || c == '.' || c == ':'
  }

  // Printing and parsing of addresses belong to the standard library; all that
  // is used of them is that they are inverse and what alphabet they print in.
  datatype IpText = IpText(show: IpAddr -> string, parse: string -> Option<IpAddr>) {
    ghost predicate Lawful() {
      forall ip ::
        && parse(show(ip)) == Some(ip)
        && show(ip) != ""
        && forall c <- show(ip) :: IsAddressChar(c)
    }
  }

  lemma PrintedIsPlain(text: IpText, ip: IpAddr)
    requires text.Lawful()
    ensures var s := text.show(ip);
      && s != "" && NoSpace(s)
      && '#' !in s && '/' !in s && '\n' !in s && '\U{feff}' !in s
  {
  }
}
