/** The already-decoded IPv4 and TCP header fields the feature builder reads.
    Field names follow the packet library's attribute names (`l3.id`,
    `l4.sport`, ...). */
module PacketHeaders {
  import opened Bytes

  type u16 = x: int | 0 <= x < 0x1_0000
  type u32 = x: int | 0 <= x < 0x1_0000_0000

  /** The bits of the 3-bit IPv4 flags field.  The reserved bit is called `evil`. */
  datatype IpFlag = MF | DF | Evil

  /** The bits of the 9-bit TCP flags field. */
  datatype TcpFlag = FIN | SYN | RST | PSH | ACK | URG | ECE | CWR | NS

  /** A Python bool, which is the integer 0 or 1. */
  type bit = b: int | 0 <= b < 2

  /** The flags as the packet library exposes them: one bool attribute per
      bit (`flags.MF`, `flags.DF`, `flags.F`, `flags.S`, ...). */
  datatype IpFlags = IpFlags(MF: bit, DF: bit, evil: bit)

  datatype TcpFlags = TcpFlags(F: bit, S: bit, R: bit, P: bit, A: bit, U: bit, E: bit, C: bit, N: bit)

  function IpAttr(flags: IpFlags, f: IpFlag): bit {
    match f
    case MF => flags.MF
    case DF => flags.DF
    case Evil => flags.evil
  }

  function TcpAttr(flags: TcpFlags, f: TcpFlag): bit {
    match f
    case FIN => flags.F
    case SYN => flags.S
    case RST => flags.R
    case PSH => flags.P
    case ACK => flags.A
    case URG => flags.U
    case ECE => flags.E
    case CWR => flags.C
    case NS => flags.N
  }

  /** The attributes with flag f negated and every other one kept. */
  function IpFlip(flags: IpFlags, f: IpFlag): (r: IpFlags)
    ensures forall g :: IpAttr(r, g) == if f == g then 1 - IpAttr(flags, g) else IpAttr(flags, g)
  {
    match f
    case MF => flags.(MF := 1 - flags.MF)
    case DF => flags.(DF := 1 - flags.DF)
    case Evil => flags.(evil := 1 - flags.evil)
  }

  function TcpFlip(flags: TcpFlags, f: TcpFlag): (r: TcpFlags)
    ensures forall g :: TcpAttr(r, g) == if f == g then 1 - TcpAttr(flags, g) else TcpAttr(flags, g)
  {
    match f
    case FIN => flags.(F := 1 - flags.F)
    case SYN => flags.(S := 1 - flags.S)
    case RST => flags.(R := 1 - flags.R)
    case PSH => flags.(P := 1 - flags.P)
    case ACK => flags.(A := 1 - flags.A)
    case URG => flags.(U := 1 - flags.U)
    case ECE => flags.(E := 1 - flags.E)
    case CWR => flags.(C := 1 - flags.C)
    case NS => flags.(N := 1 - flags.N)
  }

  /** One entry of the TCP options list: its name (`"MSS"`, `"NOP"`, ...) and
      its value as a byte string. */
  datatype TcpOption = TcpOption(kind: string, data: seq<byte>)

  datatype IpHeader = IpHeader(id: u16, flags: IpFlags, ttl: byte, len: u16, tos: byte)

  /** `seqNumber` is `l4.seq`; `layerLength` is `len(l4)`, the length the library reports for the TCP
      layer; `payload` is `l4.payload`. */
  datatype TcpHeader = TcpHeader(
    sport: u16, dport: u16, seqNumber: u32, flags: TcpFlags, window: u16, urgptr: u16,
    options: seq<TcpOption>, payload: seq<byte>, layerLength: nat)

  datatype Headers = Headers(ip: IpHeader, tcp: TcpHeader)

  /** The same headers with one TCP flag flipped. */
  function ToggleTcp(h: Headers, f: TcpFlag): Headers {
    h.(tcp := h.tcp.(flags := TcpFlip(h.tcp.flags, f)))
  }

  /** The same headers with one IPv4 flag flipped. */
  function ToggleIp(h: Headers, f: IpFlag): Headers {
    h.(ip := h.ip.(flags := IpFlip(h.ip.flags, f)))
  }
}
