/** The fixed texts of the report, the recommendations and the legal
    opinion (analise_marca.py). The texts are kept apart from the layout:
    every operation that prints them takes a table `text: Phrase -> string`
    as a parameter, the layout lemmas hold for any table, and the table the
    screener prints is `ScreenerText`. */
module Prose {

  datatype Phrase =
    // report (generate_report)
    | ReportTitle | DateLabel
    | CandidateSection | TrademarkLabel | ClassLabel | SegmentLabel
    | SourceSection | SourceLabel
    | MethodSection | MethodIntro | MethodTextual | MethodPhonetic | MethodClass
    | RiskSection | ResultLabel
    | GroundsTitle | NoPriorRecords
    | PriorMarkLabel | ClassStatusLabel | ClassStatusSeparator | DetailsSeparator
    | ProcessLabel | OwnerLabel | DetailSeparator
    | SimilarityLabel | PercentSign | RationaleLabel | FullStop | ScoreLabel | ScoreSuffix
    | RecommendationsSection | Bullet
    | NoteSection | NoteScope | NoteCaseLaw | NoteEvidence
    // recommendations (generate_recommendations)
    | LeadHigh | LeadMedium | LeadLow
    | ExpandedSearch | ConceptualProximity | ConfirmStatus | Mitigation
    // legal opinion (generate_legal_opinion)
    | OpinionTitle | OpinionDateLabel | MarkLabel | NiceClassLabel | OpinionSegmentLabel
    | SummaryTitle | ConclusionLead | GuidanceTitle | ObservationTitle
    | ProcessReference | ClosingParen | OwnerReference | ReferenceSeparator | NoReferences
    | HighGroundsBefore | HighGroundsAfter
    | MediumGroundsBefore | MediumGroundsAfter
    | LowGrounds
    | HighGuidance | MediumGuidance | LowGuidance
    | DraftNotice | DraftScope

  /** The texts as the screener prints them. */
  function ScreenerText(p: Phrase): string {
    match p
    case ReportTitle => "BUSCA DE ANTERIORIDADE – TRIAGEM PRELIMINAR (USO INTERNO)"
    case DateLabel => "Date: "
    case CandidateSection => "I. Candidate Mark Information"
    case TrademarkLabel => "- Proposed trademark: "
    case ClassLabel => "- Nice class: "
    case SegmentLabel => "- Business segment: "
    case SourceSection => "II. Data Source"
    case SourceLabel => "- Records source: "
    case MethodSection => "III. Methodological Review"
    case RiskSection => "IV. Risk Determination"
    case ResultLabel => "Result: "
    case GroundsTitle => "Grounds (top indications):"
    case PriorMarkLabel => ". Prior mark: "
    case ClassStatusLabel => "   - Class/Status: "
    case ClassStatusSeparator => " / "
    case DetailsSeparator => " | "
    case ProcessLabel => "Process/No.: "
    case OwnerLabel => "Owner: "
    case DetailSeparator => " ; "
    case SimilarityLabel => "   - Similarity index: "
    case PercentSign => "%"
    case RationaleLabel => "   - Conflict rationale: "
    case FullStop => "."
    case ScoreLabel => "   - Weighted conflict score: "
    case ScoreSuffix => "/100"
    case RecommendationsSection => "V. Recommendations (next steps)"
    case Bullet => "- "
    case NoteSection => "VI. Professional Note"
    case MethodIntro => "This preliminary screening reviewed prior records with emphasis on:"
    case MethodTextual => "(a) textual similarity (SequenceMatcher),"
    case MethodPhonetic => "(b) phonetic proximity (Soundex), and"
    case MethodClass => "(c) class-based conflict priority (same Nice class)."
    case NoPriorRecords => "Grounds: no prior records available for comparative assessment."
    case NoteScope => "This report is a screening aid for internal legal triage and does not replace"
    case NoteCaseLaw => "a full registrability opinion, including jurisdiction-specific case law review,"
    case NoteEvidence => "market coexistence evidence, examiner practice, and goods/services specification analysis."
    case LeadHigh => "Consider immediate naming alternatives before protocol to reduce refusal and opposition exposure."
    case LeadMedium => "Proceed with caution: validate coexistence feasibility and strengthen distinctiveness elements."
    case LeadLow => "Low conflict indicators: still validate with expanded search before final registrability opinion."
    case ExpandedSearch => "Run an expanded INPI search using radicals, spelling variants, singular/plural and compound expressions."
    case ConceptualProximity => "Assess conceptual proximity (meaning/idea) and phonetic variants beyond basic Soundex where relevant."
    case ConfirmStatus => "Confirm status and scope of cited records (class specification, goods/services description, owner and distinctiveness)."
    case Mitigation => "If relevant conflicts appear, consider mitigation: composite mark, figurative element, specification refinement, or alternative naming."
    case OpinionTitle => "PARECER PRELIMINAR DE REGISTRABILIDADE (MINUTA)"
    case OpinionDateLabel => "Data: "
    case MarkLabel => "Marca pretendida: "
    case NiceClassLabel => "Classe (Nice/NCL): "
    case OpinionSegmentLabel => "Segmento: "
    case SummaryTitle => "Síntese:"
    case GuidanceTitle => "Orientação:"
    case ObservationTitle => "Observação:"
    case ProcessReference => " (proc. "
    case ClosingParen => ")"
    case OwnerReference => ", titular "
    case ReferenceSeparator => "; "
    case NoReferences => "anterioridades relevantes"
    case ConclusionLead => "Com base na busca de anterioridade realizada, conclui-se que "
    case HighGroundsBefore => "identificou-se colidência relevante com "
    case HighGroundsAfter =>
      ", incluindo sinais idênticos ou praticamente idênticos "
      + "na mesma classe, o que eleva substancialmente o risco de indeferimento e/ou oposição. "
      + "Em tese, trata-se de cenário compatível com risco de confusão/associação pelo consumidor médio, "
      + "à luz da vedação legal do art. 124, XIX, da LPI."
    case MediumGroundsBefore => "foram encontradas anterioridades potencialmente conflitantes ("
    case MediumGroundsAfter =>
      "), com semelhança fonética e/ou textual "
      + "na mesma classe ou em classes próximas, o que pode gerar exigência ou oposição dependendo do entendimento do INPI."
    case LowGrounds =>
      "não foram identificadas anterioridades fortes com potencial claro de confusão direta ao consumidor médio, "
      + "mantendo-se, contudo, a recomendação de busca ampliada e validação de especificação."
    case HighGuidance =>
      "Recomenda-se não protocolar a marca nominativa isolada. "
      + "Como mitigação, sugere-se: (i) criação de marca composta com elemento distintivo forte; "
      + "(ii) alteração fonética/ortográfica substancial; (iii) eventual reposicionamento de sinal e especificação "
      + "mais precisa de produtos/serviços; e (iv) nova rodada de buscas (radicais, variações e compostas) antes de decidir o depósito."
    case MediumGuidance =>
      "O depósito pode ser considerado, porém com cautela. "
      + "Recomenda-se reforçar distintividade (marca mista/figurativa), ajustar a especificação e realizar busca ampliada "
      + "por variações fonéticas, grafias e marcas compostas antes da decisão final."
    case LowGuidance =>
      "Em princípio, o depósito mostra-se viável, sujeito à revisão final e a eventuais oposições de terceiros."
    case DraftNotice =>
      "Minuta automática para apoio interno e revisão do advogado responsável. Não substitui parecer completo,"
    case DraftScope =>
      "incluindo análise de especificação, estratégia de depósito, coexistência e prática examinadora."
  }
}
