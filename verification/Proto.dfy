// The protobuf messages of proto/step.proto that steps are made of.
module Proto {
  import opened Prelude
  import opened Values

  datatype ValueType = NoType | StringType | NumberType | BooleanType | StructType | ArrayType

  datatype Input = Input(typ: ValueType, default: Option<Value>)
  datatype Output = Output(typ: ValueType, default: Option<Value>)
  datatype OutputMethod = NoMethod | OutputsMethod | DelegateMethod
  datatype Spec = Spec(inputs: map<string, Input>, outputs: map<string, Output>, outputMethod: OutputMethod)

  datatype DefinitionType = NoDefinition | ExecDefinition | StepsDefinition

  datatype Definition = Definition(
    typ: DefinitionType,
    command: seq<string>,
    workDir: string,
    steps: seq<Step>,
    outputs: map<string, Value>,
    env: map<string, string>,
    delegate: string)

  datatype SpecDefinition = SpecDefinition(spec: Spec, definition: Definition)

  // A spec_def reference always carries its definition, so the protocol holds it.
  datatype Protocol = NoProtocol | Local | Git | Zip | Oci | Dist | Dynamic | Inline(specDef: SpecDefinition)

  // The step_path oneof.
  datatype StepPath = NoStepPath | PathExp(exp: string) | Paths(parts: seq<string>)

  datatype Reference = Reference(
    protocol: Protocol,
    url: string,
    version: string,
    path: seq<string>,
    filename: string,
    stepPath: StepPath)

  datatype Step = Step(name: string, reference: Reference, env: map<string, string>, inputs: map<string, Value>)

  datatype Status = Unspecified | Running | Success | Failure | Cancelled

  datatype ExecResult = ExecResult(command: seq<string>, workDir: string, exitCode: int)

  datatype StepResult = StepResult(
    step: Step,
    specDefinition: SpecDefinition,
    status: Status,
    outputs: map<string, Value>,
    exports: map<string, string>,
    env: map<string, string>,
    execResult: Option<ExecResult>,
    subStepResults: seq<StepResult>)
}
