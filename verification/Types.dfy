/** The inbound settings shared by the kernel manager, the configuration printer and
    the parameter validator. */
module AmneziaTypes {

  /** One AmneziaWG 3.1 obfuscation parameter set. */
  datatype Obfuscation31 = Obfuscation31(
    jc: int, jmin: int, jmax: int,
    s1: int, s2: int, s3: int, s4: int,
    h1: string, h2: string, h3: string, h4: string,
    i1: string, i2: string, i3: string, i4: string, i5: string,
    headerProtectionKey: string,
    contentPaddingAddition: string,
    rekeyAfterTime: string,
    rekeyTimeout: string,
    rejectAfterTime: string,
    keepaliveTimeout: string,
    maxHandshakeAttempts: string,
    randomTrailers: bool,
    disableCookies: bool)
  {
    function Headers(): (hs: seq<string>) { [h1, h2, h3, h4] }

    function Signatures(): (sigs: seq<string>) { [i1, i2, i3, i4, i5] }
  }

  datatype Peer = Peer(email: string, publicKey: string, presharedKey: string, allowedIPs: seq<string>)

  /** A canonical netip.Prefix, printed. */
  type Prefix = p: string | p != "" && ',' !in p && '\n' !in p witness "0.0.0.0/0"

  /** An interface address as netip.ParsePrefix classifies it, with its canonical prefix. */
  datatype Address = Blank | Malformed | IPv6(prefix: Prefix) | IPv4(prefix: Prefix)

  datatype Instance = Instance(
    id: int,
    listen: string,
    listenPort: int,
    privateKey: string,
    address: seq<Address>,
    mtu: int,
    obfuscation: Obfuscation31,
    peers: seq<Peer>)

  /** No control characters: what amneziawg.ValidateConfigValue accepts. */
  predicate PlainValue(v: string) {
    forall c | c in v :: ' ' <= c && c != '\U{7F}'
  }
}
