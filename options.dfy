/**
 * The configuration object that `index.js:13-18` builds from the options
 * handed to the plugin; `options || {}` (index.js:7) turns a missing
 * options object into one with no fields.
 */
module MermaidOptions {
  import opened JsString

  /** The plugin options the configuration reads; `None` is an absent (undefined) field. */
  datatype PluginOptions = PluginOptions(
    includeScript: Option<bool>,
    mermaidCustomClass: Option<string>,
    mermaidCustomStyle: Option<string>)

  /** `mermaidConfig`. */
  datatype Config = Config(includeScript: bool, customClass: string, customStyle: string)

  const DefaultConfig: Config := Config(false, "", "")

  /** `flag || false` for a flag that is absent or a boolean. */
  function OrFalse(flag: Option<bool>): bool
  {
    flag.Some? && flag.value
  }

  /** `text || ''` for a text that is absent or a string. */
  function OrEmpty(text: Option<string>): string
  {
    if text.Some? && text.value != "" then text.value else ""
  }

  /** The object literal at index.js:13-18, on `options || {}`. */
  function MermaidConfig(options: Option<PluginOptions>): (r: Config)
    ensures options.None? ==> r == DefaultConfig
  {
    var opts := if options.Some? then options.value else PluginOptions(None, None, None);
    Config(OrFalse(opts.includeScript), OrEmpty(opts.mermaidCustomClass), OrEmpty(opts.mermaidCustomStyle))
  }

  /** Options that set none of the three fields give the default configuration. */
  lemma EmptyOptionsGiveDefault()
    ensures MermaidConfig(Some(PluginOptions(None, None, None))) == DefaultConfig
  {
  }

  /**
   * The `||` defaults lose nothing: a supplied boolean or string ends up in the
   * configuration exactly as given, the empty string included.
   */
  lemma SuppliedOptionsAreKept(b: bool, customClass: string, customStyle: string)
    ensures MermaidConfig(Some(PluginOptions(Some(b), Some(customClass), Some(customStyle))))
              == Config(b, customClass, customStyle)
  {
  }
}
