/** The parts of the loaded configuration that the modelled core reads. */
module Settings {
  import opened Protocol

  datatype Config = Config(
    /** The server command line, words separated by single spaces. */
    command: string,
    /** Seconds without activity after which the server may sleep. */
    sleepAfter: u32,
    /** Seconds the server stays up at least once it came online. */
    minOnlineTime: u32,
    motdSleeping: string,
    motdStarting: string,
    /** Kick message sent to a player whose login woke the server. */
    loginStarting: string,
    rconEnabled: bool)
}
