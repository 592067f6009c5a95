/** Application settings (`backend/config.py`): the defaults the services are
    built from, and the comma-separated CORS origin list. Reading `.env` and
    the environment is not part of this model: a `Settings` value is what
    that loading produced. */
module Config {
  import opened Wrappers
  import opened Text
  import Chunking

  datatype Settings = Settings(
    openaiApiKey: string,
    pineconeApiKey: string,
    pineconeEnvironment: string,
    pineconeIndexName: string,
    corsOrigins: string,
    chunkSize: int,
    chunkOverlap: int,
    maxFileSize: int,
    embeddingModel: string,
    llmModel: string,
    maxTokens: int,
    temperature: real)

  /** The settings when only the two required API keys are given. */
  function DefaultSettings(openaiApiKey: string, pineconeApiKey: string): (s: Settings)
    ensures s.chunkSize == 1000 && s.chunkOverlap == 200
    ensures s.maxFileSize == 5 * 1024 * 1024
  {
    Settings(
      openaiApiKey, pineconeApiKey,
      "gcp-starter", "interview-bot",
      "http://localhost:3000",
      1000, 200, 5 * 1024 * 1024,
      "text-embedding-3-small", "gpt-4o-mini", 500, 0.7)
  }

  /** `get_cors_origins_list`: split on every comma and strip each entry. */
  function CorsOriginsList(s: Settings): (origins: seq<string>)
    ensures |origins| == |Split(s.corsOrigins, ',')|
    ensures forall i :: 0 <= i < |origins| ==> IsStripped(origins[i]) && ',' !in origins[i]
  {
    var fields := Split(s.corsOrigins, ',');
    assert forall i :: 0 <= i < |fields| ==> ',' !in Strip(fields[i]) by {
      forall i | 0 <= i < |fields| ensures ',' !in Strip(fields[i]) {
        assert fields[i] in fields;
        StripKeepsOut(fields[i], ',');
      }
    }
    seq(|fields|, i requires 0 <= i < |fields| => Strip(fields[i]))
  }

  /** One entry per comma-separated field, in the original order: entry `i`
      is field `i` stripped, and the fields joined back with commas are the
      setting itself. */
  lemma CorsOriginsListFields(s: Settings)
    ensures |CorsOriginsList(s)| == multiset(s.corsOrigins)[','] + 1
    ensures Join(Split(s.corsOrigins, ','), ",") == s.corsOrigins
    ensures forall i :: 0 <= i < |CorsOriginsList(s)| ==>
      CorsOriginsList(s)[i] == Strip(Split(s.corsOrigins, ',')[i])
  {
    SplitCount(s.corsOrigins, ',');
    JoinSplit(s.corsOrigins, ',');
  }

  /** The default origin setting yields the single local front-end origin. */
  lemma DefaultCorsOrigins(openaiApiKey: string, pineconeApiKey: string)
    ensures CorsOriginsList(DefaultSettings(openaiApiKey, pineconeApiKey)) == ["http://localhost:3000"]
  {
    var o := "http://localhost:3000";
    assert ',' !in o;
    assert Split(o, ',') == [o];
    assert !IsSpace(o[0]) && !IsSpace(o[|o| - 1]);
    StripStripped(o);
  }

  /** The default window settings are ones the chunker accepts: it is built
      with a step of 800 characters. */
  lemma DefaultChunkingAccepted(openaiApiKey: string, pineconeApiKey: string)
    ensures var s := DefaultSettings(openaiApiKey, pineconeApiKey);
      var r := Chunking.NewChunkingService(s.chunkSize, s.chunkOverlap);
      r.Ok? && Chunking.ValidService(r.value) && Chunking.Step(r.value) == 800
  {
  }
}
