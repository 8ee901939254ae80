/** The blacklist record shape. Loading the list from disk is not part of the
    model: the scanner receives the list, or the error of loading it, as input. */
module Blacklist {

  /** One blacklisted player: the name to look for and why it is listed. */
  datatype Moron = Moron(username: string, reason: string)
}
