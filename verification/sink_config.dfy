/** The registry both log sink controllers write to, and its rendering. */
module SinkConfig {
  import opened Collections
  import opened SinkOrder
  import opened SinkRendering

  class Config {
    const url: UrlParser
    var sinks: map<string, LogSink>
    var clusterSinks: map<string, LogSink>

    constructor (url: UrlParser)
      ensures this.url == url && Contents() == EMPTY_REGISTRY
    {
      this.url := url;
      sinks, clusterSinks := map[], map[];
    }

    function Contents(): Registry
      reads this
    {
      Registry(sinks, clusterSinks)
    }

    method UpsertSink(s: LogSink)
      modifies this`sinks
      ensures sinks == old(sinks)[Key(s) := s]
    {
      sinks := sinks[Key(s) := s];
    }

    method UpsertClusterSink(s: LogSink)
      modifies this`clusterSinks
      ensures clusterSinks == old(clusterSinks)[ClusterKey(s) := s]
    {
      clusterSinks := clusterSinks[ClusterKey(s) := s];
    }

    method DeleteSink(s: LogSink)
      modifies this`sinks
      ensures sinks == old(sinks) - {Key(s)}
    {
      sinks := sinks - {Key(s)};
    }

    method DeleteClusterSink(s: LogSink)
      modifies this`clusterSinks
      ensures clusterSinks == old(clusterSinks) - {ClusterKey(s)}
    {
      clusterSinks := clusterSinks - {ClusterKey(s)};
    }

    method String() returns (text: string, ghost orders: Orders)
      ensures RendersWith(url, Contents(), text, orders)
    {
      hide Enumerates, SortOf;
      var syslog, sKeys, cKeys, sorted, clusterSorted := SyslogConfig();
      var webhook, wKeys, wcKeys := WebhookConfig();
      orders := Orders(sKeys, cKeys, sorted, clusterSorted, wKeys, wcKeys);
      if |sinks| + |clusterSinks| == 0 {
        text := NULL_CONFIG;
      } else {
        text := syslog + webhook;
      }
    }

    method SyslogConfig() returns (text: string, ghost keys: seq<string>, ghost clusterKeys: seq<string>,
                                   ghost sorted: seq<Output>, ghost clusterSorted: seq<Output>)
      ensures Enumerates(keys, sinks) && Enumerates(clusterKeys, clusterSinks)
      ensures SortOf(sorted, FlatMap(NamespacedOutput, ValuesOf(sinks, keys)))
      ensures SortOf(clusterSorted, FlatMap(ClusterOutput, ValuesOf(clusterSinks, clusterKeys)))
      ensures text == FlatMap(OutputText, sorted) + FlatMap(OutputText, clusterSorted)
    {
      var outputs, clusterOutputs;
      outputs, keys := CollectOutputs(sinks, NamespacedOutput);
      outputs := Sort(outputs);
      clusterOutputs, clusterKeys := CollectOutputs(clusterSinks, ClusterOutput);
      clusterOutputs := Sort(clusterOutputs);
      sorted, clusterSorted := outputs, clusterOutputs;
      if |outputs| + |clusterOutputs| == 0 {
        return "", keys, clusterKeys, sorted, clusterSorted;
      }
      var first := SinkListString(outputs);
      var second := SinkListString(clusterOutputs);
      text := first + second;
    }

    method WebhookConfig() returns (text: string, ghost keys: seq<string>, ghost clusterKeys: seq<string>)
      ensures Enumerates(keys, sinks) && Enumerates(clusterKeys, clusterSinks)
      ensures text == FlatMap(WebhookText(url, false), ValuesOf(sinks, keys))
                    + FlatMap(WebhookText(url, true), ValuesOf(clusterSinks, clusterKeys))
    {
      var first, second;
      first, keys := CollectOutputs(sinks, WebhookText(url, false));
      second, clusterKeys := CollectOutputs(clusterSinks, WebhookText(url, true));
      text := first + second;
    }
  }

  /** Ranges over a map in an arbitrary order and appends what each value contributes. */
  method CollectOutputs<T>(m: map<string, LogSink>, contribution: LogSink -> seq<T>) returns (out: seq<T>, ghost keys: seq<string>)
    ensures Enumerates(keys, m) && out == FlatMap(contribution, ValuesOf(m, keys))
  {
    out, keys := [], [];
    var todo := m.Keys;
    while todo != {}
      invariant Distinct(keys) && todo <= m.Keys
      invariant forall k :: k in keys <==> k in m && k !in todo
      invariant out == FlatMap(contribution, ValuesOf(m, keys))
      decreases |todo|
    {
      var k :| k in todo;
      ValuesStep(m, keys, k, contribution);
      out := out + contribution(m[k]);
      todo := todo - {k};
      keys := keys + [k];
    }
  }

  method SinkListString(outputs: seq<Output>) returns (text: string)
    ensures text == FlatMap(OutputText, outputs)
  {
    hide OutputText;
    text := "";
    for i := 0 to |outputs|
      invariant text == FlatMap(OutputText, outputs[..i])
    {
      assert outputs[..i + 1] == outputs[..i] + [outputs[i]] && [outputs[i]][1..] == [];
      FlatMapAppend(OutputText, outputs[..i], [outputs[i]]);
      text := text + OutputText(outputs[i]);
    }
    assert outputs[..|outputs|] == outputs;
  }
}
