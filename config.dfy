/** The layered configuration store: one decoded YAML tree with a `global`
    section, per-page settings under `pages` and per-provider settings under
    `providers`; lookups that fall back to a default, writes that create the
    missing levels, loading with section normalisation, and the deep merge a
    template is applied with. */
module Config {
  import opened Values

  /** The top-level key a template's description is stored under; merging skips it. */
  const Metadata: string := "_metadata"

  const Empty: Value := Dict(map[])

  /** The three sections a configuration is normalised to contain. */
  const EmptySections: map<string, Value> := map["global" := Empty, "pages" := Empty, "providers" := Empty]

  /** The configuration written when no file exists or the file cannot be used. */
  const DefaultConfig: Value :=
    Dict(map[
      "global" := Dict(map[
        "base_directories" := Dict(map["documents" := Str("./data/documents"),
                                       "saved_chats" := Str("./saved_chats")]),
        "system_prompt" := Str("You are a helpful AI assistant."),
        "ignored_directories" := List([Str(".git"), Str(".env")])]),
      "pages" := Empty,
      "providers" := Empty])

  /** `v.get(key, default)`: only a dictionary has `get`; anything else raises. */
  function DictGet(v: Value, key: string, default: Value): Result<Value> {
    if v.Dict? then Ok(Get(v.entries, key, default))
    else Err("'" + TypeName(v) + "' object has no attribute 'get'")
  }

  /** `r.get(key, default)` on the result of an earlier lookup. */
  function Then(r: Result<Value>, key: string, default: Value): Result<Value> {
    match r
    case Ok(v) => DictGet(v, key, default)
    case Err(e) => Err(e)
  }

  /** The top-level sections a write sees: the empty sections it creates when
      there is no configuration yet, nothing when the configuration is not a
      dictionary. */
  function Top(c: Option<Value>): map<string, Value> {
    match c
    case None => EmptySections
    case Some(Dict(m)) => m
    case Some(_) => map[]
  }

  /** The entries of one top-level section, empty when it is absent or not a
      dictionary. */
  function Section(c: Option<Value>, section: string): map<string, Value> {
    if section in Top(c) && Top(c)[section].Dict? then Top(c)[section].entries else map[]
  }

  /** Whether a write into `section` succeeds: the sections are created when
      there is no configuration, otherwise the section must exist and be a
      dictionary (a missing one raises `KeyError`, any other value `TypeError`). */
  predicate SectionWritable(c: Option<Value>, section: string) {
    c.None? || (c.value.Dict? && section in c.value.entries && c.value.entries[section].Dict?)
  }

  /** Whether a write of one key under `name` in a page or provider section
      succeeds: the section must be writable and the entry for `name`, when
      present, a dictionary. */
  predicate ScopedWritable(c: Option<Value>, section: string, name: string) {
    SectionWritable(c, section)
    && (name in Section(c, section) ==> Section(c, section)[name].Dict?)
  }

  /** The configuration `load_app_config` keeps when the file decodes to `v`,
      or None when normalising it raises (the default is used instead). A
      falsy document counts as an empty one; a dictionary gets its missing
      sections; any other value survives only if `in` finds all three section
      names in it, since the first assignment into it raises. */
  function Loaded(v: Value): Option<Value> {
    var cfg := if Truthy(v) then v else Empty;
    if cfg.Dict? then
      Some(Dict(map k | k in cfg.entries.Keys + EmptySections.Keys ::
                  if k in cfg.entries then cfg.entries[k] else Empty))
    else if PyIn("global", cfg) && PyIn("pages", cfg) && PyIn("providers", cfg) then Some(cfg)
    else None
  }

  /** The deep merge of `overlay` into `base`: every overlay key but the
      metadata is written over the base, recursing where both sides hold a
      dictionary. */
  function Merge(base: map<string, Value>, overlay: Value): (r: map<string, Value>)
    requires overlay.Dict?
    ensures r.Keys == base.Keys + (overlay.entries.Keys - {Metadata})
    ensures forall k :: k in base && (k !in overlay.entries || k == Metadata) ==> r[k] == base[k]
    ensures forall k :: (k in overlay.entries && k != Metadata
                         && !(overlay.entries[k].Dict? && k in base && base[k].Dict?)) ==> r[k] == overlay.entries[k]
    decreases overlay, 1
  {
    map k | k in base.Keys + (overlay.entries.Keys - {Metadata}) ::
      if k in overlay.entries && k != Metadata then MergeEntry(base, k, overlay) else base[k]
  }

  /** The merged value of one overlay key. */
  function MergeEntry(base: map<string, Value>, k: string, overlay: Value): Value
    requires overlay.Dict? && k in overlay.entries
    decreases overlay, 0
  {
    var v := overlay.entries[k];
    if v.Dict? && k in base && base[k].Dict? then Dict(Merge(base[k].entries, v)) else v
  }

  /** An overlay holding nothing but metadata changes nothing. */
  lemma MergeNothing(base: map<string, Value>, overlay: Value)
    requires overlay.Dict? && overlay.entries.Keys <= {Metadata}
    ensures Merge(base, overlay) == base
  {
  }

  /** Merging a dictionary into itself gives it back. */
  lemma {:induction false} MergeSelf(v: Value)
    requires v.Dict?
    ensures Merge(v.entries, v) == v.entries
    decreases v
  {
    var m := Merge(v.entries, v);
    forall k | k in m ensures m[k] == v.entries[k] {
      if k != Metadata && v.entries[k].Dict? {
        assert m[k] == MergeEntry(v.entries, k, v);
        MergeSelf(v.entries[k]);
      }
    }
  }

  /** Applying the same template twice is the same as applying it once. */
  lemma {:induction false} MergeIdempotent(base: map<string, Value>, overlay: Value)
    requires overlay.Dict?
    ensures Merge(Merge(base, overlay), overlay) == Merge(base, overlay)
    decreases overlay
  {
    var once := Merge(base, overlay);
    var twice := Merge(once, overlay);
    forall k | k in once ensures twice[k] == once[k] {
      if k in overlay.entries && k != Metadata {
        var v := overlay.entries[k];
        assert once[k] == MergeEntry(base, k, overlay);
        assert twice[k] == MergeEntry(once, k, overlay);
        if v.Dict? {
          if k in base && base[k].Dict? {
            MergeIdempotent(base[k].entries, v);
          } else {
            MergeSelf(v);
          }
        }
      }
    }
  }

  /** `_merge_config`: walks the overlay's keys, skipping the metadata,
      merging nested dictionaries recursively and writing every other value. */
  method MergeConfig(base: map<string, Value>, overlay: Value) returns (merged: map<string, Value>)
    requires overlay.Dict?
    ensures merged == Merge(base, overlay)
    decreases overlay
  {
    merged := base;
    var todo := overlay.entries.Keys;
    while todo != {}
      invariant todo <= overlay.entries.Keys
      invariant merged.Keys == base.Keys + (overlay.entries.Keys - todo - {Metadata})
      invariant forall k :: k in merged ==>
        merged[k] == if k in overlay.entries && k !in todo && k != Metadata then MergeEntry(base, k, overlay) else base[k]
      decreases todo
    {
      var key :| key in todo;
      todo := todo - {key};
      if key != Metadata {
        var value := overlay.entries[key];
        if value.Dict? && key in merged && merged[key].Dict? {
          var inner := MergeConfig(merged[key].entries, value);
          merged := merged[key := Dict(inner)];
        } else {
          merged := merged[key := value];
        }
      }
    }
  }

  /** The configuration slot of the session, and the name of the template
      last applied. */
  class ConfigManager {
    var config: Option<Value>
    var activeTemplate: Option<string>

    /** A fresh session: no configuration yet. */
    constructor ()
      ensures config == None && activeTemplate == None
    {
      config := None;
      activeTemplate := None;
    }

    /** `get_global(key, default)`: the stored value of `key` in the global
        section, the default when there is no configuration or either level
        is missing, and an error when a level is not a dictionary. */
    function GetGlobal(key: string, default: Value): (r: Result<Value>)
      reads this
      ensures config.None? ==> r == Ok(default)
      ensures config.Some? && !config.value.Dict? ==> r.Err?
      ensures config.Some? && config.value.Dict? && "global" !in config.value.entries ==> r == Ok(default)
      ensures (config.Some? && config.value.Dict? && "global" in config.value.entries
               && !config.value.entries["global"].Dict?) ==> r.Err?
      ensures (config.Some? && config.value.Dict? && "global" in config.value.entries
               && config.value.entries["global"].Dict?) ==>
                var g := config.value.entries["global"].entries;
                r == Ok(if key in g then g[key] else default)
      ensures r.Ok? && r.value != default ==> key in Section(config, "global") && r.value == Section(config, "global")[key]
    {
      if config.None? then Ok(default)
      else Then(DictGet(config.value, "global", Empty), key, default)
    }

    /** `get_page_config(name, key, default)` with `section` "pages", and
        `get_provider_config` with `section` "providers": the stored value of
        `key` in the entry for `name`, the default when there is no
        configuration or any level is missing, and an error when a level that
        is present is not a dictionary. */
    function GetScoped(section: string, name: string, key: string, default: Value): (r: Result<Value>)
      reads this
      ensures config.None? ==> r == Ok(default)
      ensures config.Some? && !config.value.Dict? ==> r.Err?
      ensures config.Some? && config.value.Dict? && section !in config.value.entries ==> r == Ok(default)
      ensures (config.Some? && config.value.Dict? && section in config.value.entries
               && !config.value.entries[section].Dict?) ==> r.Err?
      ensures config.Some? && SectionWritable(config, section) ==>
                var entries := config.value.entries[section].entries;
                && (name !in entries ==> r == Ok(default))
                && (name in entries && !entries[name].Dict? ==> r.Err?)
                && (name in entries && entries[name].Dict? ==>
                      r == Ok(if key in entries[name].entries then entries[name].entries[key] else default))
      ensures r.Ok? && r.value != default ==>
              name in Section(config, section) && Section(config, section)[name].Dict?
              && key in Section(config, section)[name].entries
              && r.value == Section(config, section)[name].entries[key]
    {
      if config.None? then Ok(default)
      else Then(Then(DictGet(config.value, section, Empty), name, Empty), key, default)
    }

    /** `set_global(key, value)`. */
    method SetGlobal(key: string, value: Value) returns (ok: bool)
      modifies this
      ensures ok <==> SectionWritable(old(config), "global")
      ensures !ok ==> config == old(config)
      ensures activeTemplate == old(activeTemplate)
      ensures ok ==> forall d :: GetGlobal(key, d) == Ok(value)
      ensures ok ==> forall k, d :: k != key ==> GetGlobal(k, d) == old(GetGlobal(k, d))
      ensures ok ==> Top(config).Keys == Top(old(config)).Keys
      ensures ok ==> forall s :: s in Top(old(config)) && s != "global" ==> Top(config)[s] == Top(old(config))[s]
    {
      if config.None? {
        config := Some(Dict(EmptySections));
      }
      var c := config.value;
      if c.Dict? && "global" in c.entries && c.entries["global"].Dict? {
        var g := c.entries["global"].entries;
        config := Some(Dict(c.entries["global" := Dict(g[key := value])]));
        ok := true;
      } else {
        ok := false;
      }
    }

    /** `set_page_config(name, key, value)` with `section` "pages", and
        `set_provider_config` with `section` "providers": creates the entry for
        `name` when it is missing and writes one key into it. */
    method SetScoped(section: string, name: string, key: string, value: Value) returns (ok: bool)
      requires section == "pages" || section == "providers"
      modifies this
      ensures ok <==> ScopedWritable(old(config), section, name)
      ensures !ok ==> config == old(config)
      ensures activeTemplate == old(activeTemplate)
      ensures ok ==> forall d :: GetScoped(section, name, key, d) == Ok(value)
      ensures ok ==> forall k, d :: k != key ==> GetScoped(section, name, k, d) == old(GetScoped(section, name, k, d))
      ensures ok ==> Section(config, section).Keys == Section(old(config), section).Keys + {name}
      ensures ok ==> forall n :: n in Section(old(config), section) && n != name ==>
                       Section(config, section)[n] == Section(old(config), section)[n]
      ensures ok ==> Top(config).Keys == Top(old(config)).Keys
      ensures ok ==> forall s :: s in Top(old(config)) && s != section ==> Top(config)[s] == Top(old(config))[s]
    {
      if config.None? {
        config := Some(Dict(EmptySections));
      }
      var c := config.value;
      if c.Dict? && section in c.entries && c.entries[section].Dict? {
        var entries := c.entries[section].entries;
        if name !in entries {
          entries := entries[name := Empty];
        }
        if entries[name].Dict? {
          var scoped := entries[name].entries;
          config := Some(Dict(c.entries[section := Dict(entries[name := Dict(scoped[key := value])])]));
          ok := true;
        } else {
          ok := false;
        }
      } else {
        ok := false;
      }
    }

    /** `load_app_config` given what reading and decoding the file gave: on
        success the three sections are present; on any failure the default
        configuration is installed and the result is false. */
    method LoadAppConfig(read: Result<Value>) returns (ok: bool)
      modifies this
      ensures ok <==> read.Ok? && Loaded(read.value).Some?
      ensures ok ==> config == Loaded(read.value)
      ensures ok ==> config.Some? && PyIn("global", config.value) && PyIn("pages", config.value)
                     && PyIn("providers", config.value)
      ensures !ok ==> config == Some(DefaultConfig)
      ensures read.Ok? && read.value.Dict? ==>
                ok && config.value.Dict?
                && config.value.entries.Keys == read.value.entries.Keys + EmptySections.Keys
                && (forall k :: k in read.value.entries ==> config.value.entries[k] == read.value.entries[k])
                && (forall k :: k in EmptySections && k !in read.value.entries ==> config.value.entries[k] == Empty)
      ensures read.Ok? && !Truthy(read.value) ==> ok && config == Some(Dict(EmptySections))
      ensures activeTemplate == old(activeTemplate)
    {
      if read.Err? {
        config := Some(DefaultConfig);
        return false;
      }
      var cfg := if Truthy(read.value) then read.value else Empty;
      if cfg.Dict? {
        var m := cfg.entries;
        if "global" !in m {
          m := m["global" := Empty];
        }
        if "pages" !in m {
          m := m["pages" := Empty];
        }
        if "providers" !in m {
          m := m["providers" := Empty];
        }
        assert m == Loaded(read.value).value.entries;
        config := Some(Dict(m));
        ok := true;
      } else if PyIn("global", cfg) && PyIn("pages", cfg) && PyIn("providers", cfg) {
        config := Some(cfg);
        ok := true;
      } else {
        config := Some(DefaultConfig);
        ok := false;
      }
    }

    /** The constructor's work on a session: when the session has no
        configuration, load the file if there is one (`file` is None when it
        does not exist) or install the default. */
    method Initialize(file: Option<Result<Value>>)
      modifies this
      ensures config.Some?
      ensures old(config).Some? ==> config == old(config)
      ensures old(config).None? && file.None? ==> config == Some(DefaultConfig)
      ensures old(config).None? && file.Some? && file.value.Ok? && Loaded(file.value.value).Some? ==>
                config == Loaded(file.value.value)
      ensures old(config).None? && file.Some? && !(file.value.Ok? && Loaded(file.value.value).Some?) ==>
                config == Some(DefaultConfig)
      ensures activeTemplate == old(activeTemplate)
    {
      if config.None? {
        if file.None? {
          config := Some(DefaultConfig);
        } else {
          var _ := LoadAppConfig(file.value);
        }
      }
    }

    /** `load_template` given what reading and decoding the template gave: the
        template is merged into the configuration and becomes the active one.
        A template that is not a dictionary fails; so does merging a template
        with a key into a configuration that is not a dictionary. */
    method LoadTemplate(name: string, read: Result<Value>) returns (ok: bool)
      modifies this
      ensures ok <==> read.Ok? && old(config).Some? && TemplateOf(read.value).Dict?
                      && (old(config).value.Dict? || TemplateOf(read.value).entries.Keys <= {Metadata})
      ensures ok ==> activeTemplate == Some(name)
      ensures !ok ==> activeTemplate == old(activeTemplate)
      ensures ok && old(config).value.Dict? ==>
                config == Some(Dict(Merge(old(config).value.entries, TemplateOf(read.value))))
      ensures !(ok && old(config).value.Dict?) ==> config == old(config)
    {
      if read.Err? || config.None? {
        return false;
      }
      var overlay := TemplateOf(read.value);
      if !overlay.Dict? {
        return false;
      }
      match config.value {
        case Dict(base) =>
          var merged := MergeConfig(base, overlay);
          config := Some(Dict(merged));
          activeTemplate := Some(name);
          ok := true;
        case _ =>
          if overlay.entries.Keys <= {Metadata} {
            activeTemplate := Some(name);
            ok := true;
          } else {
            ok := false;
          }
      }
    }
  }

  /** A decoded template, a falsy document counting as an empty one. */
  function TemplateOf(v: Value): Value {
    if Truthy(v) then v else Empty
  }
}
