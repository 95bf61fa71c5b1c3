/** The field tables of the program, and that they meet what the statements about any field
    tables ask. */
module FieldTables {
  import opened Collections
  import opened TomlTree
  import opened ConfigSchema

  const KNOWN_SECTIONS := {"project", "build", "index", "llm", "cache_server", "call_graph", "updates"}

  const PROJECT_FIELDS: map<string, Conv> := map["name" := StrC, "id" := StrC]

  const BUILD_FIELDS: map<string, Conv> := map[
    "system" := StrC, "clean" := BoolC, "command" := StrC, "target" := StrC, "toolchain" := StrC,
    "profile" := StrC, "app_config" := StrC, "extra_profiles" := ListC, "defines" := ListC,
    "board" := StrC, "idf_path" := StrC, "fqbn" := StrC, "cmake_generator" := StrC,
    "keil_project" := StrC, "keil_target" := StrC, "keil_cmsis_path" := StrC,
    "iar_project" := StrC, "iar_target" := StrC, "makefile" := StrC, "make_target" := StrC,
    "make_vars" := DictC, "make_dry_run" := BoolC, "out_dir_var" := StrC,
    "toolchain_path" := StrC, "toolchain_prefix" := StrC, "include_dirs" := ListC,
    "system_include_dirs" := ListC, "extra_flags" := ListC, "source_dirs" := ListC,
    "compiler" := StrC, "pre_build" := StrC, "activate" := StrC, "python" := StrC,
    "timeout" := FloatC, "source_dir" := StrC, "sysbuild" := BoolC, "environment" := StrC,
    "build_dir" := StrC, "env" := StrTableC]

  const INDEX_FIELDS: map<string, Conv> := map[
    "db_dir" := PathC, "compile_commands" := PathC, "config_header" := StrC,
    "vendor_paths" := ListC, "project_paths" := ListC, "index_refs" := BoolC,
    "index_embeddings" := BoolC, "rerank_top_k" := IntC, "min_dense_count" := IntC,
    "max_symbol_body_lines" := IntC, "purge_max_missing_percent" := IntC,
    "shadow_v2_enabled" := BoolC, "shadow_v2_db" := PathC, "v2_write_authority" := BoolC,
    "legacy_compatibility_mode" := BoolC, "transient_defines" := ListC]

  const LLM_FIELDS: map<string, Conv> := map[
    "enabled" := BoolC, "ollama_url" := StrC, "model" := StrC, "embed_model" := StrC,
    "embed_query_prompt" := StrC, "embed_doc_prompt" := StrC, "embed_dim" := IntC,
    "num_ctx" := IntC, "timeout" := FloatC, "keep_alive" := StrC, "debug_log" := PathC,
    "analyze_symbols" := BoolC, "analyze_vendor" := BoolC, "reranker_model" := StrC,
    "ollama_max_concurrent" := IntC, "chat_api_base" := StrC, "chat_api_key" := StrC,
    "chat_api_format" := StrC, "auto_pull" := BoolC, "stream" := BoolC]

  const CACHE_SERVER_FIELDS: map<string, Conv> := map[
    "url" := StrC, "token" := StrC, "batch_size" := IntC, "force" := BoolC]

  const UPDATES_FIELDS: map<string, Conv> := map["check" := BoolC]

  const VARIANT_FIELDS: map<string, Conv> := map[
    "name" := StrC, "description" := StrC, "board" := StrC, "build_dir" := StrC, "env" := StrTableC]

  const IMAGE_FIELDS := {"name", "description", "dir", "type", "board"}

  const URL_KEYS := {"ollama_url", "chat_api_base"}

  const TUNING_KEYS := {
    ("project", "name"),
    ("index", "index_refs"), ("index", "index_embeddings"), ("index", "rerank_top_k"),
    ("index", "min_dense_count"), ("index", "max_symbol_body_lines"), ("index", "purge_max_missing_percent"),
    ("build", "timeout"), ("build", "clean"),
    ("llm", "enabled"), ("llm", "model"), ("llm", "num_ctx"), ("llm", "timeout"), ("llm", "keep_alive"),
    ("llm", "analyze_symbols"), ("llm", "analyze_vendor"), ("llm", "reranker_model"),
    ("llm", "ollama_max_concurrent"), ("llm", "chat_api_key"), ("llm", "chat_api_format"),
    ("llm", "auto_pull"), ("llm", "stream"),
    ("cache_server", "token"), ("cache_server", "batch_size"), ("cache_server", "force"),
    ("updates", "check")}

  const CHECKED_SECTIONS: map<string, map<string, Conv>> := map[
    "project" := PROJECT_FIELDS, "build" := BUILD_FIELDS, "index" := INDEX_FIELDS,
    "llm" := LLM_FIELDS, "cache_server" := CACHE_SERVER_FIELDS, "updates" := UPDATES_FIELDS]

  const FW_SCHEMA := Schema(
    KNOWN_SECTIONS, CHECKED_SECTIONS, VARIANT_FIELDS, IMAGE_FIELDS, URL_KEYS, TUNING_KEYS)

  const LLM_BACKEND_KEYS := {"enabled", "model", "embed_model", "chat_api_base", "chat_api_key", "chat_api_format"}

  lemma VariantsIsNoBuildField()
    ensures VARIANTS !in BUILD_FIELDS
  {
    forall k | k in BUILD_FIELDS ensures k[0] != 'v' {
    }
    assert VARIANTS[0] == 'v';
  }

  lemma NameIsAStringOfAVariant()
    ensures VariantConv(FW_SCHEMA, NAME) == Some(StrC)
    ensures VariantConv(FW_SCHEMA, "env") == Some(StrTableC)
  {
    assert NAME in VARIANT_FIELDS && VARIANT_FIELDS[NAME] == StrC;
    assert "env" in VARIANT_FIELDS && VARIANT_FIELDS["env"] == StrTableC;
  }

  lemma NoTuningKeyIsCriticalByItself()
    ensures (BUILD, VARIANTS) !in TUNING_KEYS && (CALL_GRAPH, DISPATCH_BRIDGES) !in TUNING_KEYS
    ensures forall k | k in URL_KEYS :: (LLM, k) !in TUNING_KEYS
  {
    forall t | t in TUNING_KEYS
      ensures t.1[0] != 'v' && t.1[0] != 'd' && (t.1[0] == 'o' ==> |t.1| == 21)
      ensures t.1[0] == 'c' && |t.1| == 13 ==> t.1[1] != 'h'
    {
    }
    assert "chat_api_base"[1] == 'h' && |"chat_api_base"| == 13 && "chat_api_base"[0] == 'c';
    assert VARIANTS[0] == 'v' && DISPATCH_BRIDGES[0] == 'd';
    assert |"ollama_url"| == 10 && |"ollama_max_concurrent"| == 21;
  }

  lemma UrlKeysAreStrings()
    ensures forall k | k in URL_KEYS :: k in LLM_FIELDS && LLM_FIELDS[k] == StrC
  {
  }

  lemma BackendKeysAreNoTables()
    ensures forall k | k in LLM_BACKEND_KEYS :: k in LLM_FIELDS && !IsTable(LLM_FIELDS[k])
  {
  }

  lemma FirstLettersOfTheSections()
    ensures "project"[0] == 'p' && BUILD[0] == 'b' && INDEX[0] == 'i' && LLM[0] == 'l' && "cache_server"[0] == 'c' && "updates"[0] == 'u'
    ensures CALL_GRAPH[0] == 'c' && |CALL_GRAPH| == 10 && |"cache_server"| == 12
  {
  }

  lemma BuildTable()
    ensures BUILD in CHECKED_SECTIONS && CHECKED_SECTIONS[BUILD] == BUILD_FIELDS
  {
    FirstLettersOfTheSections();
  }

  lemma IndexTable()
    ensures INDEX in CHECKED_SECTIONS && CHECKED_SECTIONS[INDEX] == INDEX_FIELDS
  {
    FirstLettersOfTheSections();
  }

  lemma LlmFieldsTable()
    ensures LLM in CHECKED_SECTIONS && CHECKED_SECTIONS[LLM] == LLM_FIELDS
  {
    FirstLettersOfTheSections();
  }

  lemma SectionNames()
    ensures CHECKED_SECTIONS.Keys <= KNOWN_SECTIONS && CALL_GRAPH !in CHECKED_SECTIONS
  {
    FirstLettersOfTheSections();
  }

  /** The field tables meet every condition of the statements about configuration. */
  lemma TablesMeetTheConditions()
    ensures SchemaOk(FW_SCHEMA)
    ensures VariantConv(FW_SCHEMA, "env") == Some(StrTableC)
    ensures forall k | k in LLM_BACKEND_KEYS :: FieldConv(FW_SCHEMA, LLM, k).Some? && !IsTable(FieldConv(FW_SCHEMA, LLM, k).value)
  {
    VariantsIsNoBuildField();
    NameIsAStringOfAVariant();
    NoTuningKeyIsCriticalByItself();
    UrlKeysAreStrings();
    BackendKeysAreNoTables();
    BuildTable();
    IndexTable();
    LlmFieldsTable();
    SectionNames();
  }
}
