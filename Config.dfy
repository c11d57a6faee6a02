/** The database paths `config.py` defines. */
module Config {
  /** The private database: real names and the key tables. */
  const PrivDbPath: string := "private.db"

  /** The anonymised database the language model is allowed to query. */
  const AnonDbPath: string := "anon.db"
}
