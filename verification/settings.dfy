/**
 * Environment variables and configparser INI files, passed in as values.
 * `os.getenv` reads an `Env`; `config[section]` and `section.get(option)`
 * read a `ConfigFile`.
 */
module Settings {
  import opened Wrappers

  /** The process environment (`os.environ`). */
  type Env = map<string, string>

  /** One `[section]` of an INI file: its option/value pairs in file order. */
  type Section = seq<(string, string)>

  /** An INI file as configparser holds it after reading: section name to section. */
  type ConfigFile = map<string, Section>

  /** What reading the configuration can raise. */
  datatype ConfigError =
    | MissingSection(section: string)   // KeyError from `config[section]`
    | NotAnInteger(text: string)        // ValueError from `int(text)`
    | NotConfigured(message: string)    // RuntimeError raised by a loader

  /** `os.getenv(name)`: the variable's value, or None when it is not set. */
  function Getenv(env: Env, name: string): Option<string> {
    if name in env then Some(env[name]) else None
  }

  /** `os.getenv(name, default)`: the variable's value when it is set, even to "", otherwise `default`. */
  function GetenvOr(env: Env, name: string, default: Option<string>): Option<string> {
    if name in env then Some(env[name]) else default
  }

  /** True when `section` has a value for `option`. */
  predicate HasOption(section: Section, option: string) {
    exists i :: 0 <= i < |section| && section[i].0 == option
  }

  /** `section.get(option)`: the value the option was last given, or None. */
  function Lookup(section: Section, option: string): (v: Option<string>)
    ensures v.Some? <==> HasOption(section, option)
  {
    if section == [] then None
    else if section[|section| - 1].0 == option then Some(section[|section| - 1].1)
    else Lookup(section[..|section| - 1], option)
  }

  /** `section.get(option, fallback)`. */
  function LookupOr(section: Section, option: string, fallback: string): string {
    Lookup(section, option).GetOr(fallback)
  }

  /** Python truthiness of a `str` or `None`: neither None nor "". */
  predicate Truthy(v: Option<string>) {
    v.Some? && v.value != ""
  }

  /** `a or b` on `str`-or-`None` values. */
  function Or(a: Option<string>, b: Option<string>): Option<string> {
    if Truthy(a) then a else b
  }
}
