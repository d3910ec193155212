/** The parts of the flow-based runtime both nodes rely on: an information
    packet (IP) as received from a port, the outcome of decoding a JSON
    payload, and what happens to the process after one loop iteration. */
module Runtime {

  /** A received IP. `InvalidIP` covers both a failed receive and a packet that
      runtime.IsValidIP rejects; `IP` carries the packet's payload frame
      (ip[1]), read as text. */
  datatype Packet = InvalidIP | IP(payload: string)

  /** The outcome of json.Unmarshal into a pointer or map variable: a syntax
      or type error, the literal `null` (which leaves the variable nil), or
      a decoded value. */
  datatype Decoded<T> = DecodeError | DecodedNull | Decoded(value: T)

  /** After one iteration of a main loop the process either goes on polling,
      has called os.Exit, or has died from a run-time panic. */
  datatype Status = Running | Exited | Crashed
}
