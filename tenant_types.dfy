/** The tenant configuration the frontend loads (frontend/src/types/tenant.ts),
    reduced to the fields the modelled components read. */
module TenantTypes {
  import opened Wrappers

  /** `tenant`: identity and display settings. */
  datatype TenantInfo = TenantInfo(id: string, slug: string, name: string, language: string)

  /** A checklist item of an audit template; `status` is optional. */
  datatype AuditItem = AuditItem(id: string, name: string, status: Option<string>)

  datatype AuditTemplate = AuditTemplate(
    id: string,
    title: string,
    description: string,
    difficulty: string,
    category: string,
    items: seq<AuditItem>,
    xpReward: int)

  datatype LpaQuestion = LpaQuestion(id: string, question: string, category: string)

  datatype LpaTemplate = LpaTemplate(
    id: string,
    title: string,
    description: string,
    frequency: string,
    questions: seq<LpaQuestion>,
    xpReward: int)

  datatype TenantConfig = TenantConfig(
    tenant: TenantInfo,
    auditTemplates: seq<AuditTemplate>,
    lpaTemplates: seq<LpaTemplate>)
}
