/** The generation pipeline (`process_files` and `generate`,
    yuca/generation.py): copy the user's replacements for overridable template
    files, apply the user's overrides and filters to the context, escape its
    strings for the output format, merge the settings, resolve the
    translations for the context's language, and render the template files
    that exist in the output folder. The file system is abstracted: a copy is
    an entry of the copy plan, the files present in the output folder after
    the template folder was copied into it are a set of names, and rendering
    is the list of files rendered with the final context. */
module Generation {
  import opened Values
  import opened Applicators
  import opened Escaping

  /** The template's `config.yml`, after loading. */
  datatype TemplateConfig = TemplateConfig(
    overridableFiles: seq<Field>,        // `config.get("overridable_files", {}) or {}`
    defaultSettings: seq<Field>,         // `config.get("default_settings", {}) or {}`
    scapeFormat: Value,                  // `config.get("scape_format")`; Null when absent
    intl: Option<Value>,                 // `config["intl"]`; None when the key is absent
    templateFiles: Option<seq<string>>)  // `config["template_files"]`; None when absent

  /** The user's recipe. */
  datatype UserConfig = UserConfig(
    staticDir: Option<Value>,            // `user_config["static"]`; None when absent
    files: seq<Field>,                   // `user_config.get("files", {}) or {}`
    overrides: seq<Field>,               // `user_config.get("overrides", {}) or {}`
    filters: seq<Field>,                 // `user_config.get("filters", {}) or {}`
    settings: seq<Field>)                // `user_config.get("settings", {}) or {}`

  /** `copyfile(static / srcName, output_folder / dstName)`. */
  datatype CopyOp = CopyOp(srcDir: string, srcName: string, dstName: string)

  /** The copies made, in order, and the error that stopped the loop. */
  datatype Plan = Plan(ops: seq<CopyOp>, failure: Option<Error>)

  // ------------------------------------------------------------ process_files

  /** A user file whose key names an overridable slot that is set. */
  predicate Eligible(overridable: seq<Field>, f: Field)
  {
    Lookup(overridable, f.key).Some? && !Lookup(overridable, f.key).value.Null?
  }

  /** The copies of `process_files`: one per user file whose key has a slot
      that is not None, in the order of the user's files. Joining a path with
      a value that is not a string raises TypeError. */
  function CopyPlan(staticDir: string, overridable: seq<Field>, files: seq<Field>): Plan
  {
    if files == [] then Plan([], None)
    else
      var init := CopyPlan(staticDir, overridable, files[..|files| - 1]);
      var f := files[|files| - 1];
      var slot := Lookup(overridable, f.key);
      if init.failure.Some? then init
      else if !Eligible(overridable, f) then init
      else if !f.val.Str? || !slot.value.Str? then Plan(init.ops, Some(TypeError))
      else Plan(init.ops + [CopyOp(staticDir, f.val.s, slot.value.s)], None)
  }

  method ProcessFiles(staticDir: string, overridable: seq<Field>, files: seq<Field>) returns (plan: Plan)
    ensures plan == CopyPlan(staticDir, overridable, files)
  {
    var ops: seq<CopyOp> := [];
    for i := 0 to |files|
      invariant CopyPlan(staticDir, overridable, files[..i]) == Plan(ops, None)
    {
      assert files[..i + 1][..i] == files[..i];
      var key, userFile := files[i].key, files[i].val;
      var templateFile := Lookup(overridable, key);
      if templateFile.None? || templateFile.value.Null? {
        continue;
      }
      if !userFile.Str? || !templateFile.value.Str? {
        CopyFailurePersists(staticDir, overridable, files, i + 1);
        return Plan(ops, Some(TypeError));
      }
      ops := ops + [CopyOp(staticDir, userFile.s, templateFile.value.s)];
    }
    assert files[..|files|] == files;
    plan := Plan(ops, None);
  }

  lemma {:induction false} CopyFailurePersists(staticDir: string, overridable: seq<Field>, files: seq<Field>, j: nat)
    requires j <= |files| && CopyPlan(staticDir, overridable, files[..j]).failure.Some?
    ensures CopyPlan(staticDir, overridable, files) == CopyPlan(staticDir, overridable, files[..j])
    decreases |files| - j
  {
    if j < |files| {
      assert files[..j + 1][..j] == files[..j];
      CopyFailurePersists(staticDir, overridable, files, j + 1);
    } else {
      assert files[..j] == files;
    }
  }

  /** `process_files` fails exactly when an eligible user file or its slot is
      not a string; otherwise it copies every eligible user file onto its slot
      and nothing else, from the staticDir folder. */
  lemma {:induction false} CopyPlanSpec(staticDir: string, overridable: seq<Field>, files: seq<Field>)
    ensures var p := CopyPlan(staticDir, overridable, files);
      p.failure.None? <==>
        forall j :: 0 <= j < |files| && Eligible(overridable, files[j]) ==>
          files[j].val.Str? && Lookup(overridable, files[j].key).value.Str?
    ensures var p := CopyPlan(staticDir, overridable, files);
      p.failure.None? ==>
        forall j :: 0 <= j < |files| && Eligible(overridable, files[j]) ==>
          CopyOp(staticDir, files[j].val.s, Lookup(overridable, files[j].key).value.s) in p.ops
    ensures var p := CopyPlan(staticDir, overridable, files);
      forall op :: op in p.ops ==>
        && op.srcDir == staticDir
        && exists j :: 0 <= j < |files| && files[j].val == Str(op.srcName)
             && Lookup(overridable, files[j].key) == Some(Str(op.dstName))
    ensures |CopyPlan(staticDir, overridable, files).ops| <= |files|
    decreases |files|
  {
    if files != [] {
      var init := files[..|files| - 1];
      var f := files[|files| - 1];
      CopyPlanSpec(staticDir, overridable, init);
      assert forall j :: 0 <= j < |init| ==> init[j] == files[j];
      var p := CopyPlan(staticDir, overridable, files);
      forall op | op in p.ops
        ensures exists j :: 0 <= j < |files| && files[j].val == Str(op.srcName)
                  && Lookup(overridable, files[j].key) == Some(Str(op.dstName))
      {
        if op in CopyPlan(staticDir, overridable, init).ops {
          var j :| 0 <= j < |init| && init[j].val == Str(op.srcName)
            && Lookup(overridable, init[j].key) == Some(Str(op.dstName));
          assert files[j] == init[j];
        } else {
          assert files[|files| - 1] == f;
        }
      }
    }
  }

  /** The copies are made in the order of the user's files: the copies for
      the first `k` files come first, so a later copy onto the same slot
      overwrites an earlier one. */
  lemma {:induction false} CopyPlanOrder(staticDir: string, overridable: seq<Field>, files: seq<Field>, k: nat)
    requires k <= |files|
    ensures CopyPlan(staticDir, overridable, files[..k]).ops <= CopyPlan(staticDir, overridable, files).ops
    decreases |files| - k
  {
    if k < |files| {
      assert files[..k + 1][..k] == files[..k];
      CopyPlanOrder(staticDir, overridable, files, k + 1);
    } else {
      assert files[..k] == files;
    }
  }

  // ------------------------------------------------------------ rendering

  /** The template files that exist, in list order: these are rendered. */
  function Rendered(templateFiles: seq<string>, present: set<string>): seq<string>
  {
    if templateFiles == [] then []
    else
      var f := templateFiles[|templateFiles| - 1];
      Rendered(templateFiles[..|templateFiles| - 1], present) + (if f in present then [f] else [])
  }

  /** The template files that are missing: these are logged and skipped. */
  function Skipped(templateFiles: seq<string>, present: set<string>): seq<string>
  {
    if templateFiles == [] then []
    else
      var f := templateFiles[|templateFiles| - 1];
      Skipped(templateFiles[..|templateFiles| - 1], present) + (if f in present then [] else [f])
  }

  /** The rendering loop at the end of `generate`. */
  method RenderTemplates(templateFiles: seq<string>, present: set<string>)
    returns (rendered: seq<string>, skipped: seq<string>)
    ensures rendered == Rendered(templateFiles, present)
    ensures skipped == Skipped(templateFiles, present)
  {
    rendered, skipped := [], [];
    for i := 0 to |templateFiles|
      invariant rendered == Rendered(templateFiles[..i], present)
      invariant skipped == Skipped(templateFiles[..i], present)
    {
      assert templateFiles[..i + 1][..i] == templateFiles[..i];
      var f := templateFiles[i];
      if f !in present {
        skipped := skipped + [f];
        continue;
      }
      rendered := rendered + [f];
    }
    assert templateFiles[..|templateFiles|] == templateFiles;
  }

  /** Rendering keeps the list order: the files of a list made of two parts
      are rendered part by part. */
  lemma {:induction false} RenderedAppend(a: seq<string>, b: seq<string>, present: set<string>)
    ensures Rendered(a + b, present) == Rendered(a, present) + Rendered(b, present)
    ensures Skipped(a + b, present) == Skipped(a, present) + Skipped(b, present)
    decreases |b|
  {
    if b == [] {
      assert a + b == a;
    } else {
      var b' := b[..|b| - 1];
      assert (a + b)[..|a + b| - 1] == a + b';
      assert (a + b)[|a + b| - 1] == b[|b| - 1];
      RenderedAppend(a, b', present);
    }
  }

  /** Every listed file is either rendered or skipped, according to whether it
      exists, and the two lists split the listed files without loss (a file
      listed twice is rendered twice). */
  lemma {:induction false} RenderedSpec(templateFiles: seq<string>, present: set<string>)
    ensures forall f :: f in Rendered(templateFiles, present) <==> f in templateFiles && f in present
    ensures forall f :: f in Skipped(templateFiles, present) <==> f in templateFiles && f !in present
    ensures multiset(Rendered(templateFiles, present)) + multiset(Skipped(templateFiles, present))
         == multiset(templateFiles)
    decreases |templateFiles|
  {
    if templateFiles != [] {
      var init := templateFiles[..|templateFiles| - 1];
      RenderedSpec(init, present);
      assert templateFiles == init + [templateFiles[|templateFiles| - 1]];
    }
  }

  // ------------------------------------------------------------ generate

  /** `escape_format is not None and escape_format in VALID_ESCAPE_FORMATS`. */
  predicate EscapeRequested(fmt: Value)
  {
    fmt.Str? && fmt.s in ValidEscapeFormats
  }

  /** Strings are escaped only for the format `latex`. */
  lemma EscapeRequestedIff(fmt: Value)
    ensures EscapeRequested(fmt) <==> fmt == Str("latex")
  {
  }

  /** `config["intl"].get(context["lang"])`, where `ctx` are the context's
      fields: a language with no entry gives None. */
  function Intl(intl: Option<Value>, ctx: seq<Field>): Result<Value>
  {
    match intl
    case None => Err(KeyError)
    case Some(Obj(table)) =>
      (match Lookup(ctx, "lang")
       case None => Err(KeyError)
       case Some(Str(tag)) => Ok(if Lookup(table, tag).Some? then Lookup(table, tag).value else Null)
       case Some(Arr(_)) => Err(TypeError)
       case Some(Obj(_)) => Err(TypeError)
       case Some(_) => Ok(Null))
    case Some(_) => Err(AttributeError)
  }

  /** The names of the files the copies write into the output folder. */
  function Destinations(ops: seq<CopyOp>): set<string>
  {
    set op | op in ops :: op.dstName
  }

  /** What a run of `generate` does: the copies, and then either the error
      that stopped it or the final context and the files rendered with it. */
  datatype Outcome =
    | Failed(copies: seq<CopyOp>, error: Error)
    | Done(copies: seq<CopyOp>, context: Value, rendered: seq<string>, skipped: seq<string>)

  /** The context after preprocessing and escaping, before the settings and
      translations are added. */
  function Prepared(cfg: TemplateConfig, user: UserConfig, userData: Value): Result<Value>
  {
    match Preprocess(userData, user.overrides, user.filters)
    case Err(e) => Err(e)
    case Ok(c) => Ok(if EscapeRequested(cfg.scapeFormat) then Escaped(c, cfg.scapeFormat.s) else c)
  }

  /** `generate(template_folder, output_folder, user_config, user_data)`;
      `outputFiles` are the files in the output folder once the template folder
      has been copied into it. */
  function RunOutcome(cfg: TemplateConfig, user: UserConfig, userData: Value, outputFiles: set<string>): Outcome
  {
    match user.staticDir
    case None => Failed([], KeyError)
    case Some(st) =>
      if !st.Str? then Failed([], TypeError)
      else
        var plan := CopyPlan(st.s, cfg.overridableFiles, user.files);
        if plan.failure.Some? then Failed(plan.ops, plan.failure.value)
        else
          match Prepared(cfg, user, userData)
          case Err(e) => Failed(plan.ops, e)
          case Ok(c) =>
            if !c.Obj? then Failed(plan.ops, TypeError)
            else
              var fs := Assign(c.fields, "settings", Obj(Update(cfg.defaultSettings, user.settings)));
              match Intl(cfg.intl, fs)
              case Err(e) => Failed(plan.ops, e)
              case Ok(intl) =>
                match cfg.templateFiles
                case None => Failed(plan.ops, KeyError)
                case Some(tf) =>
                  var present := outputFiles + Destinations(plan.ops);
                  Done(plan.ops, Obj(Assign(fs, "intl", intl)), Rendered(tf, present), Skipped(tf, present))
  }

  method Generate(cfg: TemplateConfig, user: UserConfig, userData: Value, outputFiles: set<string>)
    returns (out: Outcome)
    ensures out == RunOutcome(cfg, user, userData, outputFiles)
  {
    if user.staticDir.None? {
      return Failed([], KeyError);
    }
    if !user.staticDir.value.Str? {
      return Failed([], TypeError);
    }
    var plan := ProcessFiles(user.staticDir.value.s, cfg.overridableFiles, user.files);
    if plan.failure.Some? {
      return Failed(plan.ops, plan.failure.value);
    }
    var pre := PreprocessCtxWithUserSettings(userData, user.overrides, user.filters);
    if pre.Err? {
      return Failed(plan.ops, pre.error);
    }
    var context := pre.value;
    var escapeFormat := cfg.scapeFormat;
    if escapeFormat.Str? && escapeFormat.s in ValidEscapeFormats {
      context := EscapeStrings(context, escapeFormat.s);
    }
    if !context.Obj? {
      return Failed(plan.ops, TypeError);
    }
    var settings := Update(cfg.defaultSettings, user.settings);
    var fields := Assign(context.fields, "settings", Obj(settings));
    var intl := Intl(cfg.intl, fields);
    if intl.Err? {
      return Failed(plan.ops, intl.error);
    }
    context := Obj(Assign(fields, "intl", intl.value));
    if cfg.templateFiles.None? {
      return Failed(plan.ops, KeyError);
    }
    var rendered, skipped := RenderTemplates(cfg.templateFiles.value, outputFiles + Destinations(plan.ops));
    out := Done(plan.ops, context, rendered, skipped);
  }

  /** The final context: `settings` holds the template's default settings
      updated with the user's, `intl` holds the translations found for the
      context's language (or None, also when `lang` is a number, a boolean or
      null), and every other key is as preprocessing and escaping left it; a
      list or dict `lang` cannot be hashed, so a complete run never has one. */
  lemma GenerationContext(cfg: TemplateConfig, user: UserConfig, userData: Value, outputFiles: set<string>)
    requires RunOutcome(cfg, user, userData, outputFiles).Done?
    requires DistinctKeys(user.settings)
    ensures Prepared(cfg, user, userData).Ok? && Prepared(cfg, user, userData).value.Obj?
      && RunOutcome(cfg, user, userData, outputFiles).context.Obj?
    ensures var prepared := Prepared(cfg, user, userData).value.fields;
      var ctx := RunOutcome(cfg, user, userData, outputFiles).context.fields;
      && (forall k :: k != "settings" && k != "intl" ==> Lookup(ctx, k) == Lookup(prepared, k))
      && Lookup(ctx, "settings").Some? && Lookup(ctx, "settings").value.Obj?
      && (forall k :: Lookup(Lookup(ctx, "settings").value.fields, k) ==
            if k in KeySet(user.settings) then Lookup(user.settings, k) else Lookup(cfg.defaultSettings, k))
      && cfg.intl.Some? && cfg.intl.value.Obj? && Lookup(prepared, "lang").Some?
      && !Lookup(prepared, "lang").value.Arr? && !Lookup(prepared, "lang").value.Obj?
      && (Lookup(prepared, "lang").value.Str? ==>
            var tag := Lookup(prepared, "lang").value.s;
            var table := cfg.intl.value.fields;
            Lookup(ctx, "intl") == Some(if Lookup(table, tag).Some? then Lookup(table, tag).value else Null))
      && (!Lookup(prepared, "lang").value.Str? ==> Lookup(ctx, "intl") == Some(Null))
  {
    var settings := Update(cfg.defaultSettings, user.settings);
    forall k ensures Lookup(settings, k) ==
      if k in KeySet(user.settings) then Lookup(user.settings, k) else Lookup(cfg.defaultSettings, k)
    {
      UpdateLookup(cfg.defaultSettings, user.settings, k);
    }
  }

  /** A run stops with KeyError when the recipe has no `staticDir` folder, when
      the template has no `intl` table, when the context has no `lang`, or when
      the template lists no `template_files`. */
  lemma GenerationRequiredKeys(cfg: TemplateConfig, user: UserConfig, userData: Value, outputFiles: set<string>)
    ensures user.staticDir.None? ==> RunOutcome(cfg, user, userData, outputFiles) == Failed([], KeyError)
    ensures cfg.intl.None? || cfg.templateFiles.None? ==> !RunOutcome(cfg, user, userData, outputFiles).Done?
    ensures var out := RunOutcome(cfg, user, userData, outputFiles);
      user.staticDir.Some? && user.staticDir.value.Str? && cfg.intl.Some? && cfg.intl.value.Obj?
      && CopyPlan(user.staticDir.value.s, cfg.overridableFiles, user.files).failure.None?
      && Prepared(cfg, user, userData).Ok? && Prepared(cfg, user, userData).value.Obj?
      && Lookup(Prepared(cfg, user, userData).value.fields, "lang").None?
      ==> out == Failed(CopyPlan(user.staticDir.value.s, cfg.overridableFiles, user.files).ops, KeyError)
  {
  }

  /** Exactly the listed template files that exist in the output folder are
      rendered, in list order; a template file the user's copy replaced exists
      and is rendered. */
  lemma GenerationRenders(cfg: TemplateConfig, user: UserConfig, userData: Value, outputFiles: set<string>)
    requires RunOutcome(cfg, user, userData, outputFiles).Done?
    ensures cfg.templateFiles.Some?
    ensures var out := RunOutcome(cfg, user, userData, outputFiles);
      var present := outputFiles + Destinations(out.copies);
      && (forall f :: f in out.rendered <==> f in cfg.templateFiles.value && f in present)
      && (forall f :: f in out.skipped <==> f in cfg.templateFiles.value && f !in present)
      && multiset(out.rendered) + multiset(out.skipped) == multiset(cfg.templateFiles.value)
      && (forall op :: op in out.copies && op.dstName in cfg.templateFiles.value ==> op.dstName in out.rendered)
  {
    var out := RunOutcome(cfg, user, userData, outputFiles);
    RenderedSpec(cfg.templateFiles.value, outputFiles + Destinations(out.copies));
  }

  /** The language is read after escaping, so with the `latex` format a
      language tag holding a table character no longer finds its entry:
      `pt_BR` becomes `pt\_BR`. */
  lemma EscapedLanguageMissesIntl()
    ensures EscapeLatex("pt_BR") == "pt\\_BR"
    ensures Intl(Some(Obj([Field("pt_BR", Str("Olá"))])), [Field("lang", Str("pt_BR"))]) == Ok(Str("Olá"))
    ensures Intl(Some(Obj([Field("pt_BR", Str("Olá"))])), EscapedFields([Field("lang", Str("pt_BR"))], "latex"))
         == Ok(Null)
  {
    EscapeLatexLanguageTag();
    var fs := EscapedFields([Field("lang", Str("pt_BR"))], "latex");
    assert fs == [Field("lang", Str("pt\\_BR"))];
    assert "pt\\_BR" != "pt_BR" by { assert |"pt\\_BR"| == 6; }
  }
}
