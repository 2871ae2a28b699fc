/** The built-in providers (crates/config/src/provider_kind.rs). */
module Providers {
  datatype ProviderKind =
    | Deepseek | DeepseekAnthropic | NvidiaNim | Openai | Atlascloud | WanjieArk | Volcengine | Openrouter
    | XiaomiMimo | Novita | Fireworks | Siliconflow | Arcee | SiliconflowCN | Moonshot | Sglang | Vllm | Ollama
    | Huggingface | Together | Qianfan | OpenaiCodex | Anthropic | Openmodel | Zai | Stepfun | Minimax
    | MinimaxAnthropic | Deepinfra | Sakana | LongCat | Meta | Xai | Custom

  const ALL: seq<ProviderKind> := [
    Deepseek, DeepseekAnthropic, NvidiaNim, Openai, Atlascloud, WanjieArk, Volcengine, Openrouter,
    XiaomiMimo, Novita, Fireworks, Siliconflow, Arcee, SiliconflowCN, Moonshot, Sglang, Vllm, Ollama,
    Huggingface, Together, Qianfan, OpenaiCodex, Anthropic, Openmodel, Zai, Stepfun, Minimax,
    MinimaxAnthropic, Deepinfra, Sakana, LongCat, Meta, Xai, Custom]

  lemma {:induction false} AllListsEveryProvider(provider: ProviderKind)
    ensures provider in ALL
  {
    match provider {
      case Deepseek => assert ALL[0] == provider;
      case DeepseekAnthropic => assert ALL[1] == provider;
      case NvidiaNim => assert ALL[2] == provider;
      case Openai => assert ALL[3] == provider;
      case Atlascloud => assert ALL[4] == provider;
      case WanjieArk => assert ALL[5] == provider;
      case Volcengine => assert ALL[6] == provider;
      case Openrouter => assert ALL[7] == provider;
      case XiaomiMimo => assert ALL[8] == provider;
      case Novita => assert ALL[9] == provider;
      case Fireworks => assert ALL[10] == provider;
      case Siliconflow => assert ALL[11] == provider;
      case Arcee => assert ALL[12] == provider;
      case SiliconflowCN => assert ALL[13] == provider;
      case Moonshot => assert ALL[14] == provider;
      case Sglang => assert ALL[15] == provider;
      case Vllm => assert ALL[16] == provider;
      case Ollama => assert ALL[17] == provider;
      case Huggingface => assert ALL[18] == provider;
      case Together => assert ALL[19] == provider;
      case Qianfan => assert ALL[20] == provider;
      case OpenaiCodex => assert ALL[21] == provider;
      case Anthropic => assert ALL[22] == provider;
      case Openmodel => assert ALL[23] == provider;
      case Zai => assert ALL[24] == provider;
      case Stepfun => assert ALL[25] == provider;
      case Minimax => assert ALL[26] == provider;
      case MinimaxAnthropic => assert ALL[27] == provider;
      case Deepinfra => assert ALL[28] == provider;
      case Sakana => assert ALL[29] == provider;
      case LongCat => assert ALL[30] == provider;
      case Meta => assert ALL[31] == provider;
      case Xai => assert ALL[32] == provider;
      case Custom => assert ALL[33] == provider;
    }
  }
}
