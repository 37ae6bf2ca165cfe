/**
 * The records shared by every adapter: the transport-neutral message
 * projection, a queue as the management surface reports it, a broker entry,
 * and one broker's configuration.
 */
module BrokerTypes {

  /**
   * A read-only snapshot of one message. The creation timestamp of the
   * original record is not part of this model.
   */
  datatype StandardMessage = StandardMessage(messageId: string, headers: map<string, string>, body: string)

  /** A queue as listed by a broker's management surface; `info` holds at most a "Size" entry. */
  datatype Queue = Queue(name: string, info: map<string, string>)

  /** A broker as listed to clients: only the registered name is ever filled in. */
  datatype Broker = Broker(name: string, info: map<string, string>)

  /**
   * One broker definition; `all` keeps every key of the definition, including
   * backend-specific ones such as CONSOLE_URL or HOST.
   */
  datatype BrokerConfiguration = BrokerConfiguration(
    name: string,
    kind: string,
    url: string,
    user: string,
    pass: string,
    all: map<string, string>)

  /** Go's `m[k]` on a map of strings: the zero value "" for a missing key. */
  function Lookup(m: map<string, string>, k: string): string
  {
    if k in m then m[k] else ""
  }
}
