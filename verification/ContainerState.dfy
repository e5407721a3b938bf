/** What a container can be, as the runtime knows it, and how often the agent asks whether it has stopped. */
module ContainerState {

  datatype Exit = Exit(code: int, oom: bool)

  datatype Truth = Absent | Created | Running | Exited(exit: Exit)

  const STOP_CONFIRM_TRIES: nat := 10
}
